# QuicSync: a verified model

QuicSync copies a source tree onto a destination tree over QUIC. Both sides scan, the destination
merges the two indexes into a stream of operations, requests the files it needs, stages everything,
and then commits to the live tree. This project models one such attempt in Dafny and proves what it
promises. `dafny verify dfyconfig.toml` checks all of it.

## Main results

- **Convergence.** The streamed plan, staged in any order and committed with deferred directory
  actions, turns destination into source and never hits a failing step, unless an entry the destination
  does not manage is in the way. In the way means: beneath a managed directory that has to go, or where
  the source has an entry and only one of the two is a directory. Then, and only then, the commit fails,
  whatever rules the two sides scan by (`Convergence.Converges`, `Obstruction.CommitSucceedsIff`,
  `Attempt.Attempt`).
- **Attempt.** Two trees, two configurations: the index, the requests, the signatures and the files
  cross the wire under the limits of whoever sends and whoever reads them. The attempt succeeds exactly
  when both scans do, everything gets across and nothing unmanaged is in the way; what gets across is
  stated in lengths (`Attempt.EverythingFits`, `Sending.RecordPasses`, `Exchange.Transferable`).
- **Frame.** Every commit, failing ones included, leaves unnamed and protected entries alone
  (`Frame.CommitFrame`), and once a directory is finished nothing in it changes any more
  (`Finality.FinishedDirectoryIsFinal`).
- **Fixpoint.** Where both sides hold the same rule files, a second sync only restamps directories and a
  third plans nothing, whatever the source excludes, unless an exclusion hides a rule file
  (`SecondScan.SecondAttempt`, `SecondScan.RulesKeptIff`, `Fixpoint.ThirdPlanEmpty`).
- **Codec.** Encoding is a bijection onto accepted frames, each message has the layout written out in
  numbers, and the incremental decoder accepts a byte stream exactly when it is the encoding of the
  messages delivered (`Codec.DecodeEncode`, `WireFormat.EncodeIs`, `Streaming.StreamCanonical`).
- **Session.** In every interleaving: the control protocol is followed, operations are conserved, the
  live tree waits for the barrier, success means synchronized; and without failures there is no
  deadlock on the bounded channels, every run is bounded, and every run that cannot go on has succeeded
  (`SessionSafety`, `SessionProgress`, `SessionEnds`).
- **Transfer.** Whatever the chunks, reads and pieces, a transfer between two peers with limits of their
  own completes exactly when its request and chunks fit them, and stages the source bytes
  (`Exchange.TransferFile`, `Foreign.ForeignFrames`).
- **Fingerprints.** The DER subset is canonical and a fingerprint covers exactly the key, for every
  certificate in the terms of X.690 (`Certificate.FingerprintedShape`, `Certificate.SelfSigned`).
- **Decisions.** The order is that of raw bytes, a reserved component protects at any depth, the last rule
  set with an opinion decides, and each step of a commit succeeds under conditions a caller can check
  (`Paths.LessIff`, `Paths.ProtectedIff`, `Scan.ManagedIff`, module Effects).

## Layout

| files | subject |
|---|---|
| Paths, PathText, Records, Timestamps, Tree | paths, their order and their text, records, times, the filesystem as a map |
| Planner, PlanDiff | the streaming merge, and why it is a pointwise difference |
| Commit, Committer, PendingCommit, Effects | the commit as functions, the objects that carry it out, when each step succeeds |
| Frame, Journal, Finality | what every commit keeps, and what it did in order |
| Reconciliation, Steps, Closing, Applying, Convergence, Obstruction, Complete, Fixpoint | what commits of a plan do to trees |
| Ignore, Scan, Walking, Pipeline | ignore rules, the recursive scan, two scans as one reconciliation |
| SecondScan, Obstacle, Hidden | the next attempt, an attempt that fails, a next attempt that deletes more |
| Wire, Messages, Fields, Codec, Writer, Reader, Streaming, Decoder, Foreign | the encodings, what carries them out, and a reader with limits of its own |
| Radix, WireFormat, Unicode, Refusals | the wire format in numbers, text, and which error answers a damaged frame |
| Der, X690, Certificate | certificate fingerprints |
| Sending, Basis, Transfer, Exchange, Indexing | what the transport takes, opening files, streaming them, one transfer between the peers, the index between them |
| Attempt | one attempt end to end |
| Session, SessionSafety, SessionProgress, SessionEnds | the two peers |

A tree is a map from component paths to directories, files and links. The Unix rules that matter are
part of the steps: `rmdir` wants an empty directory, a rename does not replace a directory, every
ancestor must be a real directory, and every entry change gives the parent directory a new time and
size taken from an arbitrary clock. A step that fails keeps what it did so far. In the wire modules
`PutX(v, rest)` is the encoding of `v` in front of `rest`, and `ReadX(b)` reads a value off `b`.

Three facts the statements follow from the code rather than from `docs/architecture.md`. The
architecture says ignored destination-only paths are preserved (docs/architecture.md:61-64). One
beneath a directory that the plan removes makes the commit fail at its `rmdir`, even when both sides
have the same rule files, and a deletion carried out before it stays carried out
(`Obstacle.IgnoredEntryObstructs`). One that only a rule file keeps out of the index is deleted by the
second sync when the source excludes that rule file, because the first one deletes the destination's
copy of it (`Hidden.HiddenRuleExposes`). And `PlanEnd` reaching the source does not mean transfers are over, so the
source serves until `CompleteAck`, as its own comment says (crates/quicsync-core/src/sync/source.rs:91).

## Model

| member | source | states |
|---|---|---|
| Paths.Total | crates/quicsync-core/src/types.rs:86-87 | The derived component order on paths is total and irreflexive: of `p < q`, `p == q`, `q < p` exactly one holds. |
| Paths.Transitive | crates/quicsync-core/src/types.rs:86-87 | The order is transitive. |
| Paths.AncestorFirst | crates/quicsync-core/src/types.rs:86-87 | A directory sorts before everything beneath it. |
| Paths.Contiguous | crates/quicsync-core/src/types.rs:86-87 | Nothing outside a directory sorts between it and one of its descendants; the stack of deferred directories rests on this. |
| Paths.NameLessIff | crates/quicsync-core/src/filesystem/scan.rs:103-107 | Names are in the order of their raw bytes: the shorter when one begins the other, else by the first byte that differs. |
| Paths.LessIff | crates/quicsync-core/src/types.rs:86-87 | Paths are in the order of their components, by the first component that differs. |
| Paths.ProtectedIff | crates/quicsync-core/src/filesystem/paths.rs:201-215 | A path is protected exactly when some component of it, at any depth, spells ".git" or ".quicsync". |
| PathText.ValidPathIff | crates/quicsync-core/src/types.rs:90-116 | A path is valid exactly when the kernel reads its text, the components joined by slashes, as these very components, none of them empty, "." or "..", and without a NUL. |
| Timestamps.SplitsAgree | crates/quicsync-core/src/filesystem/staging.rs:127-141 | For every nanosecond time, the sign-and-magnitude split of regular files and the Euclidean split of links accept the same times, give the same pair, and a rescan of the pair gives the time back; the pair is whole seconds and 0 to 999,999,999 nanoseconds, and both fail exactly when the whole seconds do not fit an i64. |
| Planner.Plan | crates/quicsync-core/src/sync/planner.rs:18-74 | For any two inputs, ended, failed or cut off, and any consumer that may close early: exactly the operations both lookaheads decide are sent, up to where the consumer closed, and the run succeeds only if both inputs announced End and every operation was taken. |
| Planner.Read | crates/quicsync-core/src/sync/planner.rs:76-87 | A lookahead is the next record, nothing after End, and a failure for an error item or a dropped producer. |
| Planner.Send | crates/quicsync-core/src/sync/planner.rs:89-94 | Operations go out in order until the consumer closes. |
| Planner.CertainSound | crates/quicsync-core/src/sync/planner.rs:23-74 | Whatever was emitted before an input failed is a prefix of the plan of every completion of both inputs. |
| Planner.CertainComplete | crates/quicsync-core/src/sync/planner.rs:27-73 | Two ended inputs decide the whole plan. |
| PlanDiff.CertainTight | crates/quicsync-core/src/sync/planner.rs:27-73 | Nothing that is decided is held back: what has been emitted is the whole plan of some completion of both inputs, so with the two results above it is the longest beginning their plans share. |
| PlanDiff.PlanIsDiff | crates/quicsync-core/src/sync/planner.rs:33-66 | At every path the plan of two sorted indexes is exactly the difference of the two entries there: nothing when they are equal, else a delete if the kind goes away and then an upsert of what is wanted, an update exactly over a regular file. |
| PlanDiff.PlanOrdered | crates/quicsync-core/src/sync/planner.rs:27-73 | Operations come in path order. |
| PlanDiff.PlanNumbered | crates/quicsync-core/src/sync/planner.rs:96-100 | Operation ids count up from zero without a gap. |
| PlanDiff.PlanEmptyIff | crates/quicsync-core/src/sync/planner.rs:27-41 | The plan of any two indexes, sorted or not, is empty exactly when they are equal. |
| PlanDiff.IndexUnique | crates/quicsync-core/src/sync/planner.rs:27-41 | A sorted index is determined by its entries. |
| CommitterModel.Committer.constructor | crates/quicsync-core/src/sync/commit.rs:70-76 | A new committer has no open directory and no previous path. |
| CommitterModel.Committer.ResolveParent | crates/quicsync-core/src/filesystem/paths.rs:133-152 | A parent resolves exactly when no component at any index spells ".git" or ".quicsync" and a real directory stands at every proper prefix. |
| CommitterModel.Committer.UnlinkAt | crates/quicsync-core/src/sync/commit.rs:209-213 | The new tree and outcome of an unlink: only a directory with REMOVEDIR and no entries, only a non-directory without it; anything else fails and changes nothing. |
| CommitterModel.Committer.InstallAt | crates/quicsync-core/src/filesystem/staging.rs:86-116 | The staged bytes land with mode and time in one rename; not over a directory, not with a time out of range. |
| CommitterModel.Committer.SymlinkAt | crates/quicsync-core/src/sync/commit.rs:215-254 | Remove what is there, link, stamp the link; each failure leaves exactly what was already done. |
| CommitterModel.Committer.MakeDirectoryAt | crates/quicsync-core/src/sync/commit.rs:110-130 | A directory is created or kept, and kept writable while children are added; a link or file in its place fails. |
| CommitterModel.Committer.SetDirectoryAt | crates/quicsync-core/src/sync/commit.rs:191-202 | The deferred mode and time of a directory. |
| CommitterModel.Committer.PerformAt | crates/quicsync-core/src/sync/commit.rs:185-204 | One deferred action. |
| CommitterModel.Committer.FinishDirectoryAt | crates/quicsync-core/src/sync/commit.rs:183-207 | The innermost directory is popped and its deferred actions run in order until one fails. |
| CommitterModel.Committer.DeferAt | crates/quicsync-core/src/sync/commit.rs:170-181 | An action joins the innermost directory if it is the same path, else opens a new one. |
| CommitterModel.Committer.ApplyNext | crates/quicsync-core/src/sync/commit.rs:78-149 | One operation: refused out of order or with a mismatched file, else every directory the path has left is finished and the operation runs; the object ends in the state the specification gives. |
| CommitterModel.Committer.ExecuteAt | crates/quicsync-core/src/sync/commit.rs:103-149 | The operation itself: directory removals and directory metadata wait, replacements of a directory wait behind its removal, everything else happens now. |
| CommitterModel.Committer.FinishAll | crates/quicsync-core/src/sync/commit.rs:153-158 | Every directory still open is finished, innermost first. |
| Commit.ApplyAllAppend | crates/quicsync-core/src/sync/commit.rs:38-43 | Committing a list of changes is committing its parts one after the other. |
| PendingCommitModel.PendingCommit.Stage | crates/quicsync-core/src/sync/commit.rs:22-35 | A change is kept under its id unless the file is missing or superfluous or the id is taken; then nothing changes. |
| PendingCommitModel.PendingCommit.CommitTo | crates/quicsync-core/src/sync/commit.rs:38-44 | The live tree becomes the run of the collected changes in id order. |
| PendingCommitModel.CompletionOrder | crates/quicsync-core/src/sync/commit.rs:22-44 | Completion-order independence: for every rearrangement of a numbered plan, replaying the collected map is replaying the planner order. |
| Effects.UnlinkIff | crates/quicsync-core/src/sync/commit.rs:209-213 | An unlink succeeds exactly over an entry of the asked kind in a contained place, for a directory without any name in it, and removes just that entry. |
| Effects.InstallIff | crates/quicsync-core/src/filesystem/staging.rs:86-116 | A staged file lands exactly when the record is a file's, its time fits, the place is contained and no directory is there; it then has the staged bytes, the exact time and the twelve low mode bits. |
| Effects.InstallDisturbs | crates/quicsync-core/src/filesystem/staging.rs:86-116 | The rename changes the time and size of the file's directory and of the staging directory, and of no other. |
| Effects.SymlinkIff | crates/quicsync-core/src/sync/commit.rs:215-254 | A link is made and stamped exactly when it has a target without NUL, its time fits and no directory is there; with an empty target the old entry is gone, with a time out of range the new link stays. |
| Effects.MakeDirectoryIff | crates/quicsync-core/src/sync/commit.rs:110-130 | A directory is made or kept exactly when nothing else is there; its owner bits are then set, its other mode bits as recorded, its time and size kept. |
| Effects.SetDirectoryIff | crates/quicsync-core/src/sync/commit.rs:191-202 | Mode first, then time: a time out of range fails with the mode already set. |
| Effects.ApplyRefuses | crates/quicsync-core/src/sync/commit.rs:83-93 | An operation before the previous one in byte order, or with a file missing or superfluous, is refused with nothing changed. |
| Tree.ModeBits | crates/quicsync-core/src/sync/commit.rs:118-126 | `mode | 0o700` sets the three owner bits and keeps the others; the kernel keeps twelve bits. |
| Tree.ParentDisturbed | crates/quicsync-core/src/sync/commit.rs:209-213 | A new or lost entry gives its directory a new time and size and leaves its mode. |
| Frame.CommitFrame | crates/quicsync-core/src/sync/commit.rs:78-254 | Every commit of any operations, failing ones included: a well-formed tree stays well formed, an entry named by no operation keeps kind, content, target and mode (a directory may lose its time and size), and so does every entry with a component at any index that spells ".git" or ".quicsync", even if named. |
| Closing.CloseSucceeds | crates/quicsync-core/src/sync/commit.rs:94-101 | Moving on to the next path finishes exactly the directories it is not in, all of them successfully, and keeps the invariant that ties stack, tree and remaining plan together. |
| Closing.DeferredSucceeds | crates/quicsync-core/src/sync/commit.rs:183-207 | By the time a directory is finished its removal finds it empty, its replacement finds it gone, its metadata finds it there, and the path ends as the source wants it. |
| Closing.FinishAllSucceeds | crates/quicsync-core/src/sync/commit.rs:153-158 | At the end of the plan every open directory finishes successfully. |
| Applying.PathStep | crates/quicsync-core/src/sync/commit.rs:102-149 | All operations of one path succeed and move that path from unplanned to settled or waiting, whatever the two entries there are. |
| Convergence.TurnCommits | crates/quicsync-core/src/sync/commit.rs:78-149 | Each turn of the merge commits and keeps the invariant. |
| Convergence.Converges | crates/quicsync-core/src/sync/commit.rs:38-44 | Convergence: for every scanned source and destination, each with rules of its own, with nothing unmanaged in the way (no unmanaged entry beneath a managed directory that has to go, none standing where exactly one of it and the source entry is a directory): the commit of the plan never hits a failing step, every path of the source and every managed path becomes what the source has, and every other entry stays. |
| Journal.NeverEnteredAgain | crates/quicsync-core/src/sync/commit.rs:78-207 | In every commit of any changes, successful or not: after the deferred actions of a directory have run, no later operation, deferred action or finished directory of that run is at it or beneath it. |
| Finality.FinishedDirectoryIsFinal | crates/quicsync-core/src/sync/commit.rs:183-207 | Directory metadata is final: in every commit of any changes, successful or not, a directory and everything beneath it end exactly as they are when its deferred actions have run, times and sizes included. |
| Complete.EverythingDone | crates/quicsync-core/src/sync/commit.rs:78-158 | In a successful commit every file it was given is installed and every directory it upserts or removes is finished. |
| Complete.PlannedDirectoryFinal | crates/quicsync-core/src/sync/commit.rs:131-131 | In every successful commit of a plan each new or changed directory gets the mode and time of the source when its deferred actions run, and nothing at it or beneath it changes afterwards. |
| Obstruction.Obstructed | crates/quicsync-core/src/sync/commit.rs:183-187 | An unmanaged entry beneath a directory that has to go makes the commit fail. |
| Obstruction.Collided | crates/quicsync-core/src/sync/commit.rs:110-130 | An unmanaged entry where the source has one, only one of the two a directory, makes the commit fail. |
| Obstruction.CommitSucceedsIff | crates/quicsync-core/src/sync/commit.rs:38-44 | The commit of a plan succeeds if and only if nothing unmanaged is in the way: none beneath a managed directory that has to stop being one, none in the place of a source entry when only one of the two is a directory. Either way the tree stays well formed and every entry that is neither managed nor in the source is kept. |
| Convergence.MirrorsSource | docs/architecture.md:48 | Glue that spells synchronized out, path by path, where two files with one digest have one content: same path, kind, content, link target, mode and file or link time; a directory time too unless the directory got no operation. |
| Obstacle.IgnoredEntryObstructs | docs/architecture.md:61-64 | Two concrete trees with the same rule file: both scans succeed, the ignored destination file stands in a directory the source lacks, and every attempt fails; the last thing it tries is the `rmdir` of that directory, which still stands, and a stale file is already deleted. |
| Fixpoint.AgainValid | crates/quicsync-core/src/sync/planner.rs:40-66 | A synchronized tree is a valid start for the next attempt, and nothing stands in its way. |
| SecondScan.BareManages | crates/quicsync-core/src/filesystem/ignore.rs:94-120 | Rules put before all others can only ignore more, so a walk that gives up its configured exclusions still manages everything it managed. |
| SecondScan.RulesKeptIff | crates/quicsync-core/src/sync/destination.rs:69-95 | Where both sides hold the same rule files, whatever the source excludes: a sync leaves a directory its rules if and only if the exclusions do not hide the rule file there, that is, are not the only thing that keeps the source from managing it. |
| SecondScan.SecondAttempt | crates/quicsync-core/src/sync/destination.rs:69-95 | When no rule file is hidden, a fresh scan of the synchronized destination manages exactly the source entries, and the rule files still agree: the next attempt is the one the fixpoint results are about. |
| SecondScan.NothingHidden | crates/quicsync-core/src/sync/source.rs:44-52 | A source without configured exclusions hides nothing. |
| Hidden.HiddenRuleExposes | crates/quicsync-core/src/sync/source.rs:44-52 | The input where it fails: a source that excludes its own rule file. Two attempts succeed, and the destination file that this rule kept the first one from touching is deleted by the second. |
| Fixpoint.OnlyDirectoriesDiffer | crates/quicsync-core/src/sync/planner.rs:40-66 | After a sync the indexes differ at a path exactly when it is a directory whose time or size differs. |
| Fixpoint.SecondPlan | crates/quicsync-core/src/sync/planner.rs:40-66 | The second plan consists of directory upserts over directories that are there. |
| Fixpoint.QuietRun | crates/quicsync-core/src/sync/commit.rs:110-132 | A commit of directory upserts over existing directories adds, removes and replaces nothing and keeps every directory size. |
| Fixpoint.Restamped | crates/quicsync-core/src/sync/commit.rs:110-132 | The second commit succeeds and leaves every directory with the source time. |
| Fixpoint.ThirdPlan | crates/quicsync-core/src/sync/planner.rs:40-66 | The third plan has an operation at a path exactly when it is a directory whose byte size differs between the filesystems. |
| Fixpoint.NothingPlanned | crates/quicsync-core/src/sync/planner.rs:27-41 | Where no path differs the two indexes are equal and nothing is planned. |
| Fixpoint.ThirdPlanEmpty | crates/quicsync-core/src/sync/planner.rs:40-66 | With directory sizes left aside the third plan is empty. |
| Ignore.IgnorePolicy.AddIgnoreContents | crates/quicsync-core/src/filesystem/ignore.rs:75-83 | A valid rule file is appended to the active rules, an invalid one changes nothing. |
| Ignore.IgnorePolicy.Checkpoint | crates/quicsync-core/src/filesystem/ignore.rs:85-87 | The number of active rule sets. |
| Ignore.IgnorePolicy.Restore | crates/quicsync-core/src/filesystem/ignore.rs:90-92 | The active rules are cut back to the checkpoint. |
| Ignore.IgnorePolicy.DecisionFor | crates/quicsync-core/src/filesystem/ignore.rs:94-120 | Protected exactly when some component spells a reserved name; otherwise ignored exactly when some rule set in scope says ignore and none after it says anything. |
| Ignore.IgnoredByIff | crates/quicsync-core/src/filesystem/ignore.rs:100-119 | The last rule set in scope with an opinion decides, so a later whitelisting overrides an earlier exclusion. |
| Scan.SortedChildren | crates/quicsync-core/src/filesystem/scan.rs:84-109 | Exactly the names that stand in the directory, each before another when it is a proper prefix of it or smaller at their first different byte. |
| Scan.ManagedLocal | crates/quicsync-core/src/filesystem/ignore.rs:85-92 | Whether a path is managed depends only on the configured rules, the ignore files of its own ancestor directories, and the kinds along its own path, never on siblings. |
| Scan.ManagedIff | crates/quicsync-core/src/filesystem/scan.rs:135-168 | An entry is managed exactly when real directories lead to it, no component spells a reserved name, and neither it nor any of them is ignored by the last word of the rules in force in its directory. |
| Scan.PolicyIsLayers | crates/quicsync-core/src/filesystem/scan.rs:82-133 | The rules in force in a directory are the configured exclusions, then the ignore files from the root down, its own last. |
| Scan.OwnRulesAre | crates/quicsync-core/src/filesystem/scan.rs:109-133 | A directory adds the content of its own regular file named ".gitignore", if it has one, and nothing else. |
| Scan.InBoundsIff | crates/quicsync-core/src/filesystem/scan.rs:185-215 | The bounds on a scanned path are on its components and on its text with the slashes. |
| Tree.RecordDescribes | crates/quicsync-core/src/filesystem/scan.rs:140-172 | A record has the entry's kind, mode and time; of a file the byte count and the digest of its content, of a link mode 0777, the target, its length and its digest, of a directory its size and neither digest nor target. |
| Walking.ManagedAbove | crates/quicsync-core/src/filesystem/scan.rs:134-168 | Every ancestor of a managed path is a managed directory. |
| Walking.Discover | crates/quicsync-core/src/filesystem/scan.rs:111-133 | A regular ignore file of this directory joins the rules; nothing else does. |
| Walking.ScanDirectory | crates/quicsync-core/src/filesystem/scan.rs:77-172 | The walk below a directory succeeds exactly when no rule file is malformed and no entry is out of bounds; it then emits every managed entry below exactly once, in strict path order and after its ancestors, and leaves the policy as it found it. A walk that fails has emitted a prefix of that index. |
| Walking.ScanEntry | crates/quicsync-core/src/filesystem/scan.rs:135-168 | One entry: bounds, decision, record, and the directory below it. |
| Walking.EmitEntry | crates/quicsync-core/src/filesystem/scan.rs:154-168 | A managed entry and everything below it. |
| Walking.ScanRoot | crates/quicsync-core/src/filesystem/scan.rs:38-66 | A scan announces End exactly when it succeeds, and then has delivered a record of everything the rules leave managed; otherwise a prefix of that. Records come in byte order and each describes the entry at its path. |
| Pipeline.ScansAreIndexes | crates/quicsync-core/src/sync/destination.rs:69-95 | Glue: the records two successful scans deliver are the indexes that convergence is stated for. |
| Pipeline.PlannedStageable | crates/quicsync-core/src/sync/destination.rs:104-130 | Every planned operation has a path, and every planned file upsert a source file. |
| Wire.VarintRoundTrip | crates/quicsync-core/src/protocol/codec.rs:283-316 | Every u64 is read back from its varint, whatever follows. |
| Wire.VarintCanonical | crates/quicsync-core/src/protocol/codec.rs:297-316 | Only the minimal varint of a u64 is accepted. |
| Wire.FixedRoundTrip | crates/quicsync-core/src/protocol/codec.rs:328-339 | Fixed-width little-endian integers are read back. |
| Wire.FixedCanonical | crates/quicsync-core/src/protocol/codec.rs:492-503 | Every fixed-width field is the encoding of the value read from it. |
| Wire.I128RoundTrip | crates/quicsync-core/src/protocol/codec.rs:337-339 | Two-complement i128 times are read back. |
| Wire.I128Canonical | crates/quicsync-core/src/protocol/codec.rs:501-503 | Every sixteen bytes are the encoding of the time read from them. |
| Wire.BytesRoundTrip | crates/quicsync-core/src/protocol/codec.rs:346-349 | A length-prefixed field within the limit is read back. |
| Wire.BytesCanonical | crates/quicsync-core/src/protocol/codec.rs:517-520 | An accepted field is within the limit and is its own encoding. |
| Radix.FixedIs | crates/quicsync-core/src/protocol/codec.rs:328-339 | Byte `k` of a fixed field is digit `k` of the integer in base 256, the low one first. |
| Radix.VarintIs | crates/quicsync-core/src/protocol/codec.rs:283-295 | Byte `k` of a varint is group `k` of seven bits, the low one first, with the high bit set on all but the last. |
| Radix.GroupsNeeded | crates/quicsync-core/src/protocol/codec.rs:283-295 | A varint has as many groups as the number needs and no more. |
| WireFormat.EncodeIs | crates/quicsync-core/src/protocol/codec.rs:127-147 | Every message is written as the layout gives it in numbers, byte by byte: length, kind, version 1, every field with its width and tags. It is refused exactly when a path or the payload breaks its limit. |
| WireFormat.DecodeIs | crates/quicsync-core/src/protocol/codec.rs:150-170 | Bytes are accepted as a message exactly when they are that layout of it, on its stream and within the limits. |
| WireFormat.ShortFrames | crates/quicsync-core/src/protocol/codec.rs:617-636 | The six frames without fields, byte for byte. |
| WireFormat.AcceptedFrame | crates/quicsync-core/src/protocol/codec.rs:639-727 | The twelve bytes of a transfer acknowledgment. |
| Unicode.Utf8Iff | crates/quicsync-core/src/protocol/codec.rs:521-523 | A text field accepts exactly the encodings of sequences of Unicode scalar values (table 3-6 of the Unicode Standard). |
| Refusals.Truncated | crates/quicsync-core/src/protocol/codec.rs:150-170 | A frame cut off anywhere, inside its length too, ends unexpectedly. |
| Refusals.Trailing | crates/quicsync-core/src/protocol/codec.rs:150-170 | A frame with anything behind it has trailing bytes. |
| Refusals.Declared | crates/quicsync-core/src/protocol/codec.rs:258-268 | A length above the limit or below three is refused at once, with both numbers when it is too large. |
| Refusals.WrongVersion | crates/quicsync-core/src/protocol/codec.rs:271-281 | Any version but 1 is refused and reported, whatever the message. |
| Refusals.UnknownKind | crates/quicsync-core/src/protocol/codec.rs:639-727 | Any kind a stream does not have is refused and reported. |
| Refusals.SameError | crates/quicsync-core/src/protocol/codec.rs:198-241 | On a complete frame the incremental decoder gives the error the whole-frame decoder gives. |
| Fields.PathRoundTrip | crates/quicsync-core/src/protocol/codec.rs:357-377 | A path within the limits is read back. |
| Fields.PathCanonical | crates/quicsync-core/src/protocol/codec.rs:537-551 | An accepted path is valid, within the limits, and its own encoding. |
| Fields.RecordRoundTrip | crates/quicsync-core/src/protocol/codec.rs:396-410 | An index record is read back. |
| Fields.RecordCanonical | crates/quicsync-core/src/protocol/codec.rs:560-574 | An accepted record is representable and its own encoding. |
| Fields.OperationRoundTrip | crates/quicsync-core/src/protocol/codec.rs:420-445 | An operation is read back, tag 5 telling an update from a create. |
| Fields.OperationCanonical | crates/quicsync-core/src/protocol/codec.rs:575-598 | An accepted operation is its own encoding. |
| Fields.FailureRoundTrip | crates/quicsync-core/src/protocol/codec.rs:447-456 | A failure report is read back. |
| Fields.FailureCanonical | crates/quicsync-core/src/protocol/codec.rs:599-607 | An accepted failure report holds valid UTF-8 and is its own encoding. |
| Codec.FieldsRoundTrip | crates/quicsync-core/src/protocol/codec.rs:617-727 | The fields of every message of all three categories are read back under their kind. |
| Codec.FieldsCanonical | crates/quicsync-core/src/protocol/codec.rs:617-727 | What is accepted under a kind is a message of that kind and category, and its own encoding. |
| Codec.EncodeDecode | crates/quicsync-core/src/protocol/codec.rs:127-170 | If a message encodes, decoding the frame gives the message. |
| Codec.DecodeEncode | crates/quicsync-core/src/protocol/codec.rs:127-170 | If a frame decodes, encoding the message gives the frame: every accepted frame is canonical. |
| WriterModel.PutVarintInto | crates/quicsync-core/src/protocol/codec.rs:283-295 | The seven-bit loop writes the minimal varint. |
| WriterModel.Writer.Fixed | crates/quicsync-core/src/protocol/codec.rs:328-339 | The bytes of the integer are appended, digit `k` in base 256 as the `k`th. |
| WriterModel.Writer.I128 | crates/quicsync-core/src/protocol/codec.rs:337-339 | The two-complement bytes are appended. |
| WriterModel.Writer.Bytes | crates/quicsync-core/src/protocol/codec.rs:346-349 | Length and bytes are appended. |
| WriterModel.Writer.WritePath | crates/quicsync-core/src/protocol/codec.rs:357-377 | Refused exactly when the component count or the byte total exceeds its limit; otherwise the path is appended. |
| WriterModel.Writer.WriteMetadata | crates/quicsync-core/src/protocol/codec.rs:398-401 | Kind, mode, time and size are appended. |
| WriterModel.Writer.WriteRecord | crates/quicsync-core/src/protocol/codec.rs:396-410 | A record is appended unless its path is refused. |
| WriterModel.Writer.WriteOperation | crates/quicsync-core/src/protocol/codec.rs:420-445 | An operation is appended unless its path is refused. |
| WriterModel.Writer.WriteFailure | crates/quicsync-core/src/protocol/codec.rs:447-456 | A failure report is appended unless its path is refused. |
| WriterModel.Writer.WriteFields | crates/quicsync-core/src/protocol/codec.rs:617-705 | The fields of any message are appended unless a path is refused. |
| WriterModel.EncodeFrame | crates/quicsync-core/src/protocol/codec.rs:127-147 | The frame of the layout, exactly when the paths and the payload are within the limits; otherwise the limit it breaks. |
| ReaderModel.ParseVarint | crates/quicsync-core/src/protocol/codec.rs:297-316 | The loop over at most ten bytes reads exactly the specified value and length, with the same error in every other case. |
| ReaderModel.Reader.TakeBytes | crates/quicsync-core/src/protocol/codec.rs:474-485 | Exactly so many bytes, or the end of the frame. |
| ReaderModel.Reader.Fixed | crates/quicsync-core/src/protocol/codec.rs:492-503 | The integer whose base 256 digits the next bytes are, low one first, exactly when there are enough; otherwise the end of the frame. |
| ReaderModel.Reader.BoundedLength | crates/quicsync-core/src/protocol/codec.rs:509-516 | A varint length within a bound. |
| ReaderModel.Reader.BytesUpTo | crates/quicsync-core/src/protocol/codec.rs:517-520 | A length-prefixed field. |
| ReaderModel.Reader.Text | crates/quicsync-core/src/protocol/codec.rs:521-523 | A field of valid UTF-8. |
| ReaderModel.Reader.ReadPathAt | crates/quicsync-core/src/protocol/codec.rs:537-551 | The component loop with its shrinking byte budget, and path validation. |
| ReaderModel.Reader.ReadRecordAt | crates/quicsync-core/src/protocol/codec.rs:560-574 | A record, or the first error in it. |
| ReaderModel.Reader.ReadOperationAt | crates/quicsync-core/src/protocol/codec.rs:575-598 | An operation, or the first error in it. |
| ReaderModel.Reader.ReadFailureAt | crates/quicsync-core/src/protocol/codec.rs:599-607 | A failure report, or the first error in it. |
| ReaderModel.Reader.ReadFieldsAt | crates/quicsync-core/src/protocol/codec.rs:639-727 | The fields of a kind in a category, or an unknown kind. |
| ReaderModel.DecodePayloadOf | crates/quicsync-core/src/protocol/codec.rs:271-281 | Kind, version, fields and nothing after them. |
| ReaderModel.DecodeFrame | crates/quicsync-core/src/protocol/codec.rs:150-170 | A message exactly when the bytes are its frame in the layout, on this stream and within the limits; otherwise the first error. |
| Streaming.FeedAppend | crates/quicsync-core/src/protocol/codec.rs:198-241 | Cutting the input anywhere and pushing the pieces in turn changes nothing. |
| Streaming.FeedFrames | crates/quicsync-core/src/protocol/codec.rs:198-256 | The concatenated frames of any messages give exactly these messages in order and leave nothing held. |
| Streaming.Accounted | crates/quicsync-core/src/protocol/codec.rs:198-241 | No byte is lost or invented: what went in is the frames of the delivered messages followed by the bytes still held. |
| Streaming.StreamCanonical | crates/quicsync-core/src/protocol/codec.rs:198-249 | A byte stream is accepted to its end with some messages if and only if it is the concatenation of their encodings. |
| Streaming.OneFrame | crates/quicsync-core/src/protocol/codec.rs:150-241 | On a single frame the incremental decoder accepts exactly what the whole-frame decoder accepts. |
| Streaming.OverlongHeader | crates/quicsync-core/src/protocol/codec.rs:204-207 | Ten unfinished header bytes are refused at once by the whole-frame decoder, and by the incremental one a byte later. |
| DecoderModel.Decoder.constructor | crates/quicsync-core/src/protocol/codec.rs:183-192 | A new decoder is between frames. |
| DecoderModel.Decoder.BufferedLen | crates/quicsync-core/src/protocol/codec.rs:194-196 | At most ten header bytes, or less than ten plus the declared payload, itself within the frame limit. |
| DecoderModel.Decoder.Reset | crates/quicsync-core/src/protocol/codec.rs:251-255 | The decoder is between frames again. |
| DecoderModel.Decoder.HeaderByte | crates/quicsync-core/src/protocol/codec.rs:201-226 | One header byte. |
| DecoderModel.Decoder.TakePayload | crates/quicsync-core/src/protocol/codec.rs:229-237 | As much payload as is wanted and available, and the message it completes. |
| DecoderModel.Decoder.Push | crates/quicsync-core/src/protocol/codec.rs:198-241 | A push delivers exactly the messages its bytes complete and holds exactly the rest; on an error it starts afresh and the messages completed earlier in the same push are dropped. |
| DecoderModel.Decoder.Finish | crates/quicsync-core/src/protocol/codec.rs:243-249 | The end of the stream is accepted exactly between frames. |
| DecoderModel.AnyCut | crates/quicsync-core/src/protocol/codec.rs:198-241 | For every list of messages and every split of their frames into pushes, the pushes deliver exactly that list. |
| DecoderModel.MessageQueue.Next | crates/quicsync-core/src/sync/wire.rs:50-62 | First in, first out over any cut of the stream, under the reader's own limits: each call takes the first message still to come; a stream is reported closed only with nothing to come, and malformed only when something in it is refused. |
| Foreign.ForeignFrames | crates/quicsync-core/src/sync/wire.rs:50-62 | Frames of a peer with other limits: every message is read up to the first that does not encode under the reader's own limits, and there, not earlier and not later, the reading ends in a refusal. |
| Der.RoundTrip | crates/quicsync-core/src/auth.rs:510-541 | Parsing an encoding gives tag, value and rest back (X.690 section 8.1.3). |
| X690.LengthIs | crates/quicsync-core/src/auth.rs:610-620 | A length is one octet below 128, else the count of its base 256 digits and these digits, most significant first and without a leading zero (sections 8.1.3 and 10.1 of X.690). |
| X690.EncodeIsTlv | crates/quicsync-core/src/auth.rs:607-624 | Identifier, definite length, contents. |
| Der.Canonical | crates/quicsync-core/src/auth.rs:510-541 | Any accepted input is the one shortest-form encoding of the element followed by the rest (X.690 section 10.1). |
| Der.EncodeElement | crates/quicsync-core/src/auth.rs:607-624 | Tag, shortest length and value are pushed. |
| Der.CheckedValue | crates/quicsync-core/src/auth.rs:528-536 | Eight length digits never overflow the checked arithmetic. |
| Der.ParseElement | crates/quicsync-core/src/auth.rs:510-541 | The parser accepts exactly the specified inputs. |
| Certificate.Fingerprint | crates/quicsync-core/src/auth.rs:483-508 | In the terms of X.690: for every certificate that is a sequence of a sequence of an optional context-specific constructed element 0, five fields, a key sequence and more, the hash is of exactly the key sequence; and nothing else is fingerprinted. |
| Certificate.ShapeIs | crates/quicsync-core/src/auth.rs:483-508 | The shape the reader goes by is that one: class, constructed bit and number of every identifier. |
| Certificate.FingerprintOfWritten | crates/quicsync-core/src/auth.rs:483-508 | Every certificate of the shape of section 4.1 of RFC 5280 is fingerprinted over exactly its key info. |
| Certificate.FingerprintRead | crates/quicsync-core/src/auth.rs:483-508 | Whatever is fingerprinted is a certificate of that shape, and the bytes hashed are its key info. |
| Certificate.EncodeSequence | crates/quicsync-core/src/auth.rs:598-605 | Values are concatenated under one sequence. |
| Certificate.SpkiOf | crates/quicsync-core/src/auth.rs:589-596 | The key info of an Ed25519 key (section 4 of RFC 8410). |
| Certificate.SelfSigned | crates/quicsync-core/src/auth.rs:547-587 | The self-signed certificate, field by field in X.690 terms: version 3 under context-specific 0, serial, object identifier 1.3.101.112, empty issuer, two UTC times, empty subject, key info; then the algorithm again and the signature over exactly the signed part as a bit string. Its fingerprint covers exactly the key info. |
| Certificate.PositiveSerial | crates/quicsync-core/src/auth.rs:558-566 | The serial is the random bytes with the top bit of the first cleared, and that byte made 1 if nothing is left of it. |
| Certificate.SelfSignedFingerprint | crates/quicsync-core/src/auth.rs:483-587 | For every key, serial and signature the self-signed certificate is fingerprinted over exactly the key info of the key. |
| Certificate.SpkiIdentifiesKey | crates/quicsync-core/src/auth.rs:589-596 | Different keys have different key infos. |
| Sending.SendFrame | crates/quicsync-core/src/transport/quic.rs:814-832 | Encode and the transport check: the frame, exactly when the message encodes and its whole frame, header included, is within the limit. |
| Sending.TransportRefuses | crates/quicsync-core/src/transport/quic.rs:814-832 | The transport refuses an encodable message exactly when its payload, and one byte for each seven bits of the payload length, exceed the limit. |
| Sending.TransportMayRefuse | crates/quicsync-core/src/transport/quic.rs:814-832 | Such a message exists, so encoding within the limit alone is not enough to be sent. |
| Sending.CrossesIff | crates/quicsync-core/src/transport/quic.rs:814-832 | A message is sent under one peer's limits and read under the other's exactly when both take its path, its frame fits the sender and its payload the reader. |
| Sending.RecordCrosses | crates/quicsync-core/src/sync/source.rs:56-66 | What that means for an index record, from the lengths of its path components and link target alone. |
| Indexing.SendIndex | crates/quicsync-core/src/sync/source.rs:56-66 | The source writes the records it can send, in order, stops at the first it cannot, and ends with End exactly when the scan did. |
| Indexing.ReceiveIndex | crates/quicsync-core/src/sync/destination.rs:73-83 | In any pieces, the planner's channel is given what arrives, and End only if End arrived. |
| Indexing.ExchangeIndex | crates/quicsync-core/src/sync/source.rs:56-66 | Both halves: the planner is given the whole index and its end exactly when the scan ended and every record gets across; otherwise records of a prefix and no end. |
| Transfer.Input.Read | crates/quicsync-core/src/sync/transfer.rs:51-72 | Bytes come in order across chunks; an empty answer means the marker arrived and nothing is left; a channel closed without its marker is an error. |
| Transfer.CopyAll | crates/quicsync-core/src/filesystem/staging.rs:55-83 | For all chunks and read sizes: all bytes before the marker, or nothing when there is no marker. |
| Transfer.Produce | crates/quicsync-core/src/sync/transfer.rs:75-90 | For all short reads: the content in pieces of what each read gave, or, when the consumer closes first, a failure with a prefix of those pieces sent. |
| Transfer.PiecesFacts | crates/quicsync-core/src/sync/transfer.rs:75-90 | The pieces are not empty, within the size, and joined in order are the content. |
| Transfer.PieceAt | crates/quicsync-core/src/sync/transfer.rs:75-90 | Each piece is as long as it can be: what is left, up to the chunk size and up to what this read returns. |
| Transfer.ChunkSize | crates/quicsync-core/src/sync/transfer.rs:277-288 | No chunk size for a limit of 32 or less; otherwise the limit less 32, or 65536 if that is less. |
| Transfer.ChunkFits | crates/quicsync-core/src/sync/transfer.rs:277-296 | For every frame limit above 32 each chunk encodes, and its whole frame, header included, passes the transport limit. |
| Transfer.EndArrived | crates/quicsync-core/src/sync/transfer.rs:196-209 | Nothing is delivered unless the end message arrived. |
| Transfer.FlowIs | crates/quicsync-core/src/sync/transfer.rs:110-121 | A whole file is carried in whole-file messages, a signature in signature messages, a delta in delta messages, one for each chunk in order, then the end of that flow. |
| Transfer.SendFlow | crates/quicsync-core/src/sync/transfer.rs:110-121 | The pieces of the content are written, each a message of its flow, with the end after them; all of it encodes. |
| Transfer.CutOffDelivers | crates/quicsync-core/src/sync/transfer.rs:193-213 | A flow cut off at a chunk the reader refuses delivers nothing. |
| Transfer.ChunkReadableIff | crates/quicsync-core/src/sync/transfer.rs:277-296 | A reader takes a chunk exactly when the whole payload is within its own frame limit. |
| Transfer.ReceiveFlow | crates/quicsync-core/src/sync/transfer.rs:193-213 | Over any cut of the stream, a flow is accepted exactly when its end arrives with nothing foreign before it, and then is exactly the carried bytes; what follows the end is still to be read. |
| Exchange.RequestCrosses | crates/quicsync-core/src/sync/transfer.rs:164-192 | A request gets from the destination to the source exactly when its path is within both peers' bounds, its frame fits the one and its payload the other. |
| Exchange.Ask | crates/quicsync-core/src/sync/transfer.rs:170-241 | The destination writes its request, and for an update the signature of the basis behind it without waiting; it can exactly when its own limits take the request and an update has its basis. |
| Exchange.AskedRead | crates/quicsync-core/src/sync/transfer.rs:93-99 | What the source reads of that in any pieces, one of which may span the request and the signature: nothing, if its limits refuse the request, otherwise the request and then the signature up to a chunk it refuses. |
| Exchange.Answer | crates/quicsync-core/src/sync/transfer.rs:102-117 | For all reads, chunks and pieces a flow between two peers arrives complete exactly when the reader takes every chunk, and not at all otherwise. |
| Exchange.Serve | crates/quicsync-core/src/sync/transfer.rs:93-163 | The source answers a request with the whole file or with a delta to the signature it reads; what the destination then has is the source file, exactly when the file is there and every chunk of every flow is taken. |
| Exchange.Acknowledge | crates/quicsync-core/src/sync/transfer.rs:118-121 | The source accepts the acknowledgment exactly when it names the transfer it served. |
| Exchange.TransferFile | crates/quicsync-core/src/sync/transfer.rs:93-263 | Both peers in full, each under its own limits, from the request to the acknowledgment: the file is staged and acknowledged exactly when both limits allow chunks, the request gets across, the reader of each flow takes its chunks, the source has the file and an update has its basis; the staged bytes are then the source file, given that patching a basis with a delta made from its signature gives the delta's source. |
| Basis.OpenRegular | crates/quicsync-core/src/filesystem/paths.rs:224-272 | A regular file is found exactly when a real directory stands at every proper prefix and no component spells a reserved name; a missing or link ancestor is no error, a reserved component at any index is. |
| Basis.BasisExists | crates/quicsync-core/src/sync/transfer.rs:219-224 | Every planned file upsert finds its source file, and a destination basis whenever the planner asked for an update, which it does exactly over a managed regular file: "update basis missing" is unreachable. |
| Attempt.ScannedOk | crates/quicsync-core/src/filesystem/scan.rs:135-168 | Every record a scan emits is one the wire types can hold. |
| Attempt.ScannedMayNotPass | crates/quicsync-core/src/sync/source.rs:56-66 | A scan that succeeds may still emit a record the same limits refuse: a regular file at a path of 40 bytes under limits of 100. |
| Attempt.Cross | crates/quicsync-core/src/sync/wire.rs:50-62 | A control message arrives in any pieces exactly when it fits the sender's transport and the reader's codec. |
| Attempt.PlannedFile | crates/quicsync-core/src/sync/planner.rs:44-66 | A planned transfer is for a file whose entries differ, and an update exactly where the destination manages a file. |
| Attempt.FilePlanned | crates/quicsync-core/src/sync/planner.rs:44-66 | Every such file is planned. |
| Attempt.StageTransfers | crates/quicsync-core/src/sync/destination.rs:96-130 | Transfers and staging in whatever order they finish: all succeed exactly when every file gets across, and the collected changes are then the staged plan. |
| Attempt.TransferAndCommit | crates/quicsync-core/src/sync/destination.rs:96-139 | Staging and committing succeeds exactly when every file gets across and nothing unmanaged is in the way; if a file does not, the live tree is untouched. |
| Attempt.Attempt | crates/quicsync-core/src/sync/destination.rs:36-147 | One attempt from two trees and two configurations: it succeeds if and only if both scans do, everything the peers have to tell each other gets across (the start, the control messages, every record of the source index, every request, signature, file and delta), and nothing unmanaged is in the way. On success the destination equals the source; whatever fails before the commit leaves the live tree as it was. |
| SessionSafety.EmitsThePlan | crates/quicsync-core/src/sync/planner.rs:27-66 | In every session, after any interleaving, what the planner sends next is the next operation of the one plan, although it sees only what the bounded index channels have delivered. |
| SessionSafety.AlwaysSafe | crates/quicsync-core/src/sync/destination.rs:69-147 | Every interleaving of the two peers, of any length, failures included, keeps the session invariant. |
| SessionSafety.ControlSafety | crates/quicsync-core/src/sync/source.rs:67-82 | The destination's control trace is a prefix of StartAccepted, PlanEnd, CompleteAck; the source never rejects it; staging and basis lookups never break. |
| SessionSafety.SourceSuccess | crates/quicsync-core/src/sync/source.rs:67-98 | When the source returns success the destination has committed the whole plan and equals the source. |
| SessionSafety.DestinationSuccess | crates/quicsync-core/src/sync/destination.rs:132-147 | The same whenever CompleteAck was sent or the destination returned success. |
| SessionSafety.Conservation | crates/quicsync-core/src/sync/destination.rs:96-130 | Every operation sent is in exactly one place, queued, in a transfer or staged, and jobs and queue never exceed their capacity. |
| SessionSafety.ContentIsSource | crates/quicsync-core/src/sync/transfer.rs:170-263 | A transfer that completes before the barrier has the source bytes. |
| SessionSafety.EverythingStaged | crates/quicsync-core/src/sync/destination.rs:126-132 | When requesting has ended the collected changes are exactly the staged plan in id order. |
| SessionSafety.OnlyCommitWrites | crates/quicsync-core/src/sync/destination.rs:133-139 | Glue for StagingBarrier: of all steps of the session only the commit has the live tree in its new state. |
| SessionSafety.StagingBarrier | crates/quicsync-core/src/sync/destination.rs:132-139 | The live tree has its initial value until all four tasks have succeeded with every operation staged. |
| SessionSafety.AllInstalled | crates/quicsync-core/src/filesystem/staging.rs:86-116 | A successful commit renames every staged file out of the staging directory. |
| SessionSafety.NothingLeftBehind | crates/quicsync-core/src/filesystem/staging.rs:119-125 | Every temporary belongs to a transfer or a staged file; after a successful commit none is left, and after any failure, of the commit too, none once transfers and remaining changes are dropped. |
| SessionProgress.NeverStuck | crates/quicsync-core/src/sync/destination.rs:96-130 | No deadlock, with every channel bounded, the index channels on both sides included: in every reachable state, as long as neither peer failed and not both have returned, some step can be taken, for all positive capacities. |
| SessionEnds.StepDescends | crates/quicsync-core/src/sync/destination.rs:69-147 | Every step a peer takes of its own accord brings the session closer to its end. |
| SessionEnds.SessionBounded | crates/quicsync-core/src/sync/destination.rs:69-147 | With nothing unmanaged in the way, every interleaving without failures has a bounded number of steps. |
| SessionEnds.SessionSucceeds | crates/quicsync-core/src/sync/source.rs:67-98 | Total correctness: every such interleaving that cannot go on has ended with both peers successful, the full control trace, and the destination equal to the source. |
| SessionEnds.SessionExtends | crates/quicsync-core/src/sync/source.rs:67-98 | Every interleaving without failures extends to one in which both peers have returned and the destination equals the source. |

## Left out

- librsync, BLAKE3, SHA-256 and Ed25519 are arbitrary functions. What is assumed of them is written as a precondition: patching with a delta gives the delta's source, a digest has 32 bytes, and signatures have 64 bytes.
- Glob matching inside one rule file is an arbitrary verdict; the order and scope of rule files are modelled.
- Convergence.Converges: a directory that is already indexed alike gets no operation, so its time may be disturbed by changes inside it; its byte size is never claimed. Both are as in the code.
- Commit errors are collapsed to failed; which error code or message is reported is not modelled.
- A staged file is its bytes. Its temporary name and the creation of `.quicsync` are not part of the tree; an install does disturb the time of `.quicsync`.
- Link modes are Linux's fixed 0777.
- Operation ids are unbounded in the planner; Attempt.Attempt asks for trees of fewer than 2^60 entries, so that none exceeds a u64.
- Permission failures, full disks, special files and changes to the trees by others during an attempt.
- Walking.ScanDirectory: a consumer that closes during the scan, and entries that are neither directory, file nor link, are not modelled; both only add failures.
- Transfer.ReceiveFlow: the pump and the blocking copy run one after the other here; in the code they overlap through a queue of two chunks that only carries data forward.
- Convergence.Converges: two files that differ but share a digest are not told apart, as in the code; `Convergence.MirrorsSource` asks for the two files at its path.
- Exchange.Serve: librsync may stop reading before the end marker; here the delta is read to its end first, which acceptance waits for anyway.
- The session is a state machine over values, one step for each action of a task, rather than imperative code: the tasks run concurrently in the code. Channels are bounded as in the code; the source's index stream is bounded by a number of messages in flight rather than of bytes.
- Attempt.Attempt: authorization and root lookup between StartSync and StartAccepted are not modelled, and the tasks of the two peers run one after the other; their interleavings are the session's subject. The bound on open transfers does not appear in it.
- SessionSafety.ControlSafety: StartSync and the destination's wait for unexpected bytes from the source are not part of the session.
- SessionEnds.SessionSucceeds: whether a message fits the limits of the two peers is not part of the session; one that does not is a peer failing there. The exact condition is that of Attempt.Attempt.
- SessionEnds.SessionSucceeds: that tasks which can move eventually do is not part of it; timeouts and cancellation appear only as a peer failing. A transfer is one step from its served request to its received file; Exchange.TransferFile is its inside.
- QUIC, TLS, 0-RTT and connection setup; streams are reliable and first in, first out.
- Configuration, identity files, fingerprint text, grant lookup, root ids, peer messages and the command line.
- Decoding a relative path on its own (crates/quicsync-core/src/filesystem/paths.rs:98-131): the bounds and validation it shares with the codec are modelled there.
