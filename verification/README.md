# Verified models of canonical history, session state and repair

This project models the parts of the repository that decide what a
conversation's history *is*: how physical canonical rows become logical turns
and markers, how several workers share one session state, and how the
incident repair replaces a conversation's rows. Five value-level pieces stand
beside them: the greedy alignment of the BEAM judge, the structured-summary
codec, the speaker-handle grammar, the message offset of a trimmed history,
and the exporter's cursor pagination.

Loops and objects of the source are methods and classes here, each proved
against a function or predicate. Such a function is in turn pinned by a lemma
in the data's own terms (texts, versions, numbers, positions), which does not
name it. The main results are lemmas about those specifications, over all
inputs or all runs.

| file | subject |
|---|---|
| `Text`, `Seqs`, `CanonicalRows` | blank test and `strip`; sequence, sorting and counting vocabulary; the row |
| `PositionalGrouping`, `ExplicitGrouping`, `LazyRepair` | rows into turns, by position or by stored number; the stores' one-shot numbering |
| `Watermark`, `Restore`, `Checkpoint` | the compaction watermark; full and live restore; progress markers over whole runs |
| `LiveRefinement`, `PositionalRefinement`, `RepairedRead` | when the live restore is the full restore: by stored number, by position, mixed, and through the relational read |
| `TurnTagIndex`, `SessionState`, `SessionProtocol` | the bounded index with its three dictionaries; hydrate, extract, save and note; every interleaving of many workers |
| `EvidencePlan`, `EvidenceExecutor`, `ActorCards` | planning and applying the remap of tool evidence; actor cards under the deletion trigger |
| `Artifact`, `ArtifactBuilder` | the loader's checks; the builder, and why the loader accepts it |
| `ChannelBackfill`, `SenderBackfill` | the two column backfills and when a second run still changes something |
| `GreedyAlignment`, `StructuredSummary`, `SpeakerHandles`, `HistoryOffset`, `Pagination` | the value-level pieces |

`dafny verify dfyconfig.toml` checks everything.

## What the proofs show about the code

Where a plausible claim is false of the code, the code was kept, a concrete
input is given and the exact condition is proved:

- The live restore is the full restore exactly when every turn shows the same
  in both, whatever the numbering (`LiveExactlyTurnByTurn`). With stored
  numbers that means every turn is *faithful*. With turns numbered by position
  it means compaction took whole tagged turns from the end and dropping rows
  joins no reply to a message it did not follow (`PositionalExactly`). When
  only the kept rows are numbered, each number must hold what its position
  shows (`MixedExactly`). The guard of the live restore admits group number
  -1, the field's default (`DefaultGroupMisnumbers`). No store of the
  repository feeds it such rows: the base `get_all_canonical_turns` returns
  nothing (virtual_context/core/store.py:626-630) and the rows the SQL stores
  merge never carry -1. A store that overrides only the full read would.
- Through the relational read, which merges turns, skips blank ones and leaves
  the newest incomplete one, the two agree exactly when every turn is
  *preserved*. The read repairs unnumbered tables first; the repair keeps the
  positional groups exactly when every row has content and its blank test sees
  the openings truthiness sees. The full read of the SQL stores repairs too
  (virtual_context/storage/sqlite.py:3523-3545,
  virtual_context/storage/postgres.py:3762-3779), so two reads of one repaired
  store compare by `MergedLiveExact` of the repaired rows;
  `RepairedReadExact` compares the read with the table from before, for every
  table and also when the repair cannot be written.
- The provider's save refuses a stored version *newer* than the incoming one;
  it does not demand equality. Over every run this is still a
  compare-and-swap (`AcceptedSave`), provided hydrates that replace an index
  are *covered*. In every reachable state a hydrate is covered exactly when no
  continuation can drop a commit (`HydrateExactly`). The unversioned durable
  fallback can be uncovered, and then an engine overwrites its own commit
  (`UncoveredNoteLosesWork`, `HazardReachable`).
- The index holds 5000 entries and evicts the oldest, so "contains every
  earlier entry" holds up to eviction (`ContinuesKeeps`). Entries are compared
  without their canonical id, which is assigned in place.
- A completed turn assigns its entry the id of its first stored row
  (virtual_context/engine.py:2487, 2653-2656) without asking whether another
  entry has it, and goes round the id dictionary. A hydrate then keeps only
  the first of two entries with one id. Growth survives exactly when no other
  entry carries the assigned id (`AssignExactly`): an engine can start from
  what is stored without losing a commit if and only if the stored ids are
  distinct (`RestartExactly`).
- An undelete that keeps the generation brings deleted entries back exactly
  when an engine, an unsaved snapshot or a load under way still holds one
  (`UndeleteExactly`).
- The executor of the evidence plan raises nothing exactly when the planned
  links have distinct (turn, ref) keys. The primary key of the link table
  leaves out the origin the planner deduplicates by, so two links that differ
  only in naming their own conversation as origin collide
  (`LinkKeysCanCollide`).
- Both backfills promise that a second run is a no-op. For channels that
  fails exactly when the first run leaves a row open: without a label in a
  channel that, ids stripped, is left with one (`ChannelBackfill.OneRunExactly`).
  It takes a key, the row's own or the origin of a moved row, that gives an id
  starting with whitespace, because the store strips what the derivation
  compares unstripped; two runs always suffice.
  For senders it fails exactly where a name taken from raw text is another
  participant's; again two runs suffice.
- In the structured-summary codec the text limit of 1000 never decides: text
  equals an excerpt of at most 800.
- The history offset is exact past the end of the history, and otherwise only
  for an even watermark over an untrimmed history.

Environment assumptions, stated as parameters or premises: the Redis
transaction is atomic; undeleting a tombstone raises the conversation
generation, except in `UndeleteExactly` (a provider whose store has no
`activate_conversation` keeps generation 0); store reads return what was written; turn hashes,
checksums, id derivation, case folding, lower-casing, envelope parsing,
body projections and text similarity are arbitrary functions (injective, or
returning stripped values, only where a premise says so); the Discord server
is an arbitrary function of the call number and the cursor.

## Model

| member | source | states |
|---|---|---|
| Text.StripCuts | virtual_context/core/canonical_turns.py:15-39 | stripping takes characters of that set off the two ends and nothing else |
| PositionalGrouping.GroupByPosition | virtual_context/engine.py:1327-1358 | the pass with one pending half-turn yields the look-ahead grouping, numbered from 0 |
| PositionalGrouping.LegacyGroups | virtual_context/storage/compaction_reads.py:75-94 | the stores' generator numbers the same groups as the engine's pass |
| PositionalGrouping.GroupShapes | virtual_context/engine.py:1331-1357 | every positional group is [both], [user], [user, assistant] or [assistant] |
| PositionalGrouping.GroupsConcatenate | virtual_context/engine.py:1331-1357 | the groups in order are the rows with content: nothing lost, repeated or moved |
| PositionalGrouping.AppendRow | virtual_context/engine.py:1331-1357 | one more row is ignored, completes the last group, or opens a new one |
| PositionalGrouping.StampIsGrouping | virtual_context/engine.py:1327-1358 | a row's group number is the count of openings up to it, and the stamped rows of number k are group k |
| PositionalGrouping.GroupsExactly | virtual_context/engine.py:1327-1358 | there are as many groups as rows with a text that answer none, and at the number of such rows before it stands the group of each: alone, or with the answer that comes next |
| ExplicitGrouping.GroupByNumber | virtual_context/engine.py:1321-1325 | the dictionary pass and the sort give ascending numbers, each with its rows in order |
| ExplicitGrouping.GroupCanonicalRows | virtual_context/engine.py:1314-1358 | stored numbers are used exactly when every row has a number at or above 0 |
| ExplicitGrouping.GroupedAscends | virtual_context/engine.py:1314-1358 | in either mode numbers strictly ascend from 0 or more, every group is non-empty, and its rows come from the input |
| ExplicitGrouping.GroupedExactly | virtual_context/engine.py:1314-1358 | if every row stores a number that is not negative, each number is listed once, ascending, with the rows storing it in their order; otherwise the positional groups are counted from 0 |
| ExplicitGrouping.StampRegroups | virtual_context/engine.py:1314-1358 | storing the positional numbers and grouping by them returns the positional groups |
| LazyRepair.RepairLegacyGroups | virtual_context/storage/compaction_reads.py:37-72 | numbering happens only when no row is numbered, and a row directly after a lone user half shares its number |
| LazyRepair.RepairedExactly | virtual_context/storage/compaction_reads.py:37-72 | a table with any number stays; otherwise row i gets the count, from 0, of the rows up to it that are not an assistant-only row after a user-only one, both by stripped text |
| LazyRepair.RepairKeepsGroups | virtual_context/storage/compaction_reads.py:37-72 | for all rows, the repaired rows regroup to the positional groups if and only if every row has content and the repair counts a row exactly where a group opens |
| LazyRepair.CleanRepairKeepsGroups | virtual_context/storage/compaction_reads.py:37-72 | without whitespace-only halves that means: every row has content |
| Watermark.CanonicalPrefixWatermark | virtual_context/engine.py:1361-1381 | the result is the half count and last number of the longest prefix of non-blank, fully compacted groups |
| Watermark.WatermarkCountsTexts | virtual_context/engine.py:1361-1381 | the first part is the number of positions with a user text that strips to non-empty plus those with such an assistant text, in the rows of the leading groups that have a text and are all compacted; the second is the last number of those groups |
| Watermark.WatermarkOfWholeTurns | virtual_context/engine.py:1361-1381 | n leading compacted turns of one user and one assistant message, before an open one, give 2n and the number of the n-th |
| Watermark.WatermarkUnique | virtual_context/engine.py:1361-1381 | that description determines the watermark |
| Watermark.WatermarkMonotone | virtual_context/engine.py:1361-1381 | compacting more rows lowers neither part, in either grouping mode |
| Watermark.AppendLowersByLastGroup | virtual_context/engine.py:1361-1381 | a positional append lowers it only as an uncompacted reply, and then by the old last group's share exactly |
| Restore.PairPayload | virtual_context/engine.py:1407-1419 | text and raw content of each role come from the first row with that role's text |
| Restore.PayloadTakesFirst | virtual_context/engine.py:1407-1419 | text and raw content of a role are those of the row at the first index whose text of that role is not empty, and empty without one |
| Restore.RestoreShows | virtual_context/engine.py:1421-1578 | in ascending order, the full restore shows exactly the tagged groups with an uncompacted row, the live one every tagged group it reads, and both leave pending exactly the groups with an untagged row |
| Restore.RestoreLiveTurns | virtual_context/engine.py:1543-1578 | refuses a failed read and rows without a number attribute, and otherwise, also for an empty read, yields the live history and pending turns |
| LiveRefinement.LiveExactlyWhenFaithful | virtual_context/engine.py:1543-1578 | with stored numbers, live restore of the uncompacted rows equals full restore if and only if every turn is faithful |
| LiveRefinement.UniformIsFaithful | virtual_context/engine.py:1421-1578 | turns compacted as a whole and only once tagged make both restores equal |
| PositionalRefinement.LiveExactlyTurnByTurn | virtual_context/engine.py:1421-1578 | for all rows in any numbering, live restore of the uncompacted rows equals full restore if and only if under every number both show the same |
| PositionalRefinement.MixedExactly | virtual_context/engine.py:1314-1358 | when compaction leaves only numbered rows of a table that had others, they agree if and only if each stored number holds what the turn at that position shows |
| PositionalRefinement.PositionalExactly | virtual_context/engine.py:1326-1358 | with positions on both sides they agree if and only if compacted content is a tail, touched turns are wholly compacted and tagged, and dropping rows joins no reply to another message |
| PositionalRefinement.CompactedMustBeLast | virtual_context/engine.py:1558-1562 | on rows that all have content, compacted turn by turn once tagged, they agree if and only if nothing uncompacted follows a compacted row |
| LiveRefinement.LoadUncompactedGroups | virtual_context/storage/compaction_reads.py:97-172 | after the repair, or without it when it cannot be written, the result has, ascending, one row for each turn k with an uncompacted row and a non-blank text where both texts are non-blank or every row is numbered and some row carries a number above k, and no other row |
| LiveRefinement.ReadIsMerged | virtual_context/storage/compaction_reads.py:97-172 | for every table, the merged rows are exactly those: number, texts and raw contents of the turn, tagged if all its rows are |
| RepairedRead.RepairKeepsRestore | virtual_context/storage/compaction_reads.py:37-72 | a repair that keeps the positional groups leaves the full restore as it was |
| RepairedRead.RepairedReadExact | virtual_context/storage/compaction_reads.py:97-172 | for every table, repair written or not, live restore through the read is the full restore from before if and only if under every number the admitted turn shows what the turn of that number showed |
| RepairedRead.RepairedReadPreserved | virtual_context/storage/compaction_reads.py:97-172 | on an unnumbered table where the repair counts a row exactly where a group opens, they agree if and only if every repaired turn is preserved |
| LiveRefinement.MergedLiveIsSelectedFull | virtual_context/engine.py:1543-1578 | through that read, live restore is the full restore of the admitted turns, numbers included, however rows are numbered |
| LiveRefinement.MergedLiveExact | virtual_context/engine.py:1543-1578 | hence it equals the full restore if and only if compacted turns are tagged and all others admitted |
| LiveRefinement.DefaultGroupMisnumbers | virtual_context/engine.py:1558-1562 | rows numbered -1 pass the guard and come back under other turn numbers than the full restore gives |
| Checkpoint.Engine.UpdateCheckpointMarkers | virtual_context/engine.py:2773-2799 | each marker becomes the largest of its old value and what it is raised by: the index turns and the given one, then the history, the given completed turn and the indexed one, then the turn before half the compacted prefix |
| Checkpoint.Engine.RestoreFromCanonicalRows | virtual_context/engine.py:1421-1541 | markers after a restore: watermark taken over, flushed clamped to it, completed and indexed only raised |
| Checkpoint.Engine.LoadPersistedState | virtual_context/engine.py:1580-1644 | a loaded checkpoint is put in order and then corrected from canonical rows when those can be read |
| Checkpoint.Engine.ApplyCachedState | virtual_context/engine.py:1646-1762 | the same from a cached dictionary, with the watermark derived afresh |
| Checkpoint.UpdatedIsRaised | virtual_context/engine.py:2773-2799 | for all markers and indexes, each new value is at least all of those and equals one of them, or -1 |
| Checkpoint.RestoredIsCorrected | virtual_context/engine.py:1506-1520 | the watermark is taken over and bounds what was flushed; completed and indexed turn are the largest of before, the turns and the tagged turns; the version is at least 4 |
| Checkpoint.OrderedLoadIs | virtual_context/engine.py:1580-1644 | a loaded marker is the stored one or, if missing, derived from the compacted prefix or the number of entries, and is then raised over the index |
| Checkpoint.IndexHoldsTagged | virtual_context/engine.py:1435-1475 | the rebuilt index offers one entry for each tagged turn: its number, the first id of its rows and the digest of its two texts |
| Checkpoint.IndexAscends | virtual_context/engine.py:1435-1475 | in ascending order of turns |
| Checkpoint.StepKeepsOrder | virtual_context/engine.py:1506-1520 | every operation keeps indexed at or below completed, lowers neither unless it loads, and clamps flushed whenever rows are read |
| Checkpoint.RunKeepsOrder | virtual_context/engine.py:2773-2799 | over every run of load, restore, index and save, indexed stays at or below completed whatever was loaded |
| Checkpoint.RunNeverLowers | virtual_context/engine.py:2773-2799 | between loads neither marker goes down |
| Checkpoint.RunClampsFlushed | virtual_context/engine.py:1506-1520 | once rows were read, flushed stays at or below compacted until the next load |
| TurnTags.TurnTagIndex.AppendEntry | virtual_context/core/turn_tag_index.py:54-86 | appends the entry object unless its turn is present or its id known, evicts at the bound, and keeps the dictionaries exact, the id dictionary if it was |
| TurnTags.TurnTagIndex.EvictOldest | virtual_context/core/turn_tag_index.py:88-113 | the identity guard deletes precisely the keys that still name the evicted object |
| TurnTags.AppendIs | virtual_context/core/turn_tag_index.py:54-86 | an entry with the turn or the non-empty id of a present one is dropped; any other goes last, and from 5000 entries on the oldest goes |
| TurnTags.TurnTagIndex.EntryByHash | virtual_context/core/turn_tag_index.py:161-162 | finds the newest entry with the hash, and nothing exactly when no entry has it or it is empty |
| TurnTags.TurnTagIndex.AssignCanonicalId | virtual_context/engine.py:2653-2656 | the entry of the turn gets the id in place and the dictionaries are not told |
| TurnTags.TurnTagIndex.BindCanonicalTurnId | virtual_context/core/turn_tag_index.py:144-159 | a known id wins over the turn; otherwise the turn's entry is bound and the id dictionary stays exact if the entry had no id |
| TurnTags.AssignedIdsExactly | virtual_context/engine.py:2653-2656 | ids stay distinct if and only if no other entry carries the assigned one |
| TurnTags.RebuildExactly | virtual_context/engine.py:1847-1898 | rebuilding returns the same entries if the ids are distinct and fewer otherwise |
| TurnTags.EvictHash | virtual_context/core/turn_tag_index.py:88-113 | a hash becomes unknown by eviction exactly when no newer entry carries it |
| TurnTags.RebuildSame | virtual_context/engine.py:1847-1898 | rebuilding an index from serialized entries with distinct turns and ids, one append at a time, returns them |
| SessionStates.SessionEngine.Hydrate | virtual_context/engine.py:1819-1898 | a version above 0 and at or below the engine's own leaves generation, version, index object and entries; any other gives the engine the state's generation and version and the rebuilt index, a new object with entry objects of its own and an exact id dictionary |
| SessionStates.HydrateByVersion | virtual_context/engine.py:1819-1898 | stated by the two version numbers alone: which states leave the worker as it is, and what it holds after any other |
| SessionStates.SessionEngine.NoteSaved | virtual_context/engine.py:2063-2070 | only the version changes, and only when a save succeeded |
| SessionProtocol.AcceptedSave | virtual_context/proxy/session_state.py:931-996 | in every reachable state an accepted save carries exactly the stored version |
| SessionProtocol.RunInv | virtual_context/engine.py:1819-1830 | every state of every run, ids assigned in place included, satisfies the invariant tying store, workers, loads, snapshots and notes to the commits of the generation |
| SessionProtocol.CommittedIndexesGrow | virtual_context/engine.py:1819-1830 | over every interleaving of covered hydrates with assigned ids, late notes, stale and new engines, deletion and fallback loads, a later commit of a generation continues every earlier one |
| SessionProtocol.HeldHydratesKeepWork | virtual_context/engine.py:1822-1826 | over every run in which an engine hydrates only from nonzero versions at or below its own, its index, uncommitted entries included, is continued at every later point |
| SessionProtocol.HydrateKeepsEntryExactly | virtual_context/engine.py:1822-1826 | an entry of the engine survives a hydrate if and only if the version is nonzero and at or below its own, or the loaded state holds the entry |
| SessionProtocol.HydrateExactly | virtual_context/engine.py:1819-1898 | in every reachable state a hydrate is covered if and only if no continuation stores an index that drops a commit |
| SessionProtocol.RestartExactly | virtual_context/engine.py:1819-1898 | an engine that starts from what is stored can lose a commit if and only if two stored entries share an id |
| SessionProtocol.AssignExactly | virtual_context/engine.py:2653-2656 | after an engine at the stored version assigns an id and saves, that can happen if and only if another entry carried the id |
| SessionProtocol.DistinctIdsKeepRestarts | virtual_context/core/turn_tag_index.py:54-86 | over every run that assigns only ids no other entry carries and whose id dictionaries miss none, it never happens |
| SessionProtocol.ForeignNoteLosesWork | virtual_context/engine.py:2063-2070 | a note left from an earlier generation above the stored version lets the engine overwrite what another engine stores meanwhile |
| SessionProtocol.UndeleteExactly | virtual_context/proxy/session_state.py:1582-1614 | after an undelete at any generation, whatever steps follow, a deleted entry can be stored again if and only if the generation was kept and an engine, an unsaved snapshot or a load under way held one |
| SessionProtocol.LooseRunPlaced | virtual_context/proxy/session_state.py:1582-1614 | the premise of that holds in every state of every run with undeletes at any generation |
| SessionProtocol.ContinuesKeeps | virtual_context/core/turn_tag_index.py:88-113 | continuing means: the earlier entries, ids aside, start the later index, and some are missing only if it is full |
| SessionProtocol.NothingResurrected | virtual_context/proxy/session_state.py:1582-1614 | over runs whose undeletes raise the generation, what is stored was put in by engines of the stored generation |
| SessionProtocol.SaveNowOverwrites | virtual_context/proxy/session_state.py:931-996 | an engine at the stored version or above saves successfully whatever it holds |
| SessionProtocol.UncoveredNoteLosesWork | virtual_context/engine.py:1819-1830 | a replacing hydrate with an own note at or above the stored version still in flight lets the engine overwrite what is stored |
| SessionProtocol.UncoveredSnapshotLosesWork | virtual_context/engine.py:2072-2136 | the same from a snapshot extracted but not yet saved |
| SessionProtocol.HazardReachable | virtual_context/proxy/session_state.py:1641-1695 | the premise of that loss is reached from the initial state by ordinary steps and one fallback load |
| EvidencePlan.EvidenceRemapPlan | scripts/apply_canonical_repair_artifact_20260802.py:1615-1729 | fails exactly on duplicate candidate refs, and otherwise returns the specified plan |
| EvidencePlan.PlanFailsExactly | scripts/apply_canonical_repair_artifact_20260802.py:1615-1650 | the planner stops exactly when two movable tools share a ref |
| EvidencePlan.ToolsGoWhere | scripts/apply_canonical_repair_artifact_20260802.py:1615-1676 | a tool is mapped to a group exactly when it goes there with all its links; every other is quarantined with the first reason that holds |
| EvidencePlan.LinksGoWhere | scripts/apply_canonical_repair_artifact_20260802.py:1677-1729 | the mapped links are exactly those that go with a mapped tool, under its new turn; every other is quarantined with the first reason that holds |
| EvidencePlan.ToolsConserved | scripts/apply_canonical_repair_artifact_20260802.py:1615-1729 | each tool row is in exactly one of mapped and quarantined, counting copies |
| EvidencePlan.MappedExactly | scripts/apply_canonical_repair_artifact_20260802.py:1625-1676 | a tool is mapped to a group if and only if it is native with that target and all its links agree |
| EvidencePlan.DefensiveBranchDead | scripts/apply_canonical_repair_artifact_20260802.py:1677-1729 | a link that reaches the defensive branch agrees with its mapped tool, so the branch is never taken |
| EvidencePlan.LinksFollowTools | scripts/apply_canonical_repair_artifact_20260802.py:1677-1729 | a link is kept if and only if its tool is mapped, and moves to the tool's group |
| EvidencePlan.LinksConserved | scripts/apply_canonical_repair_artifact_20260802.py:1677-1729 | every link is quarantined verbatim or serves in moved form, no other link appears, and the deduplicated count is never negative |
| EvidenceExecutor.EvidenceStore.Remap | scripts/apply_canonical_repair_artifact_20260802.py:1788-1933 | the statements in order and the closing checks: which error is raised, and the tables when none is |
| EvidenceExecutor.RemapFailsHow | scripts/apply_canonical_repair_artifact_20260802.py:1796-1856 | on any tables, each statement error is raised exactly when its rows are missing, foreign or repeated, or two links share a key, and no earlier one applies |
| EvidenceExecutor.AuditExactly | scripts/apply_canonical_repair_artifact_20260802.py:1858-1933 | on any tables, each closing error is raised exactly when a live row lacks its mapping, a mapping its row, turn or origin, or an ordinal is negative, in that order |
| EvidenceExecutor.RemapSucceedsExactly | scripts/apply_canonical_repair_artifact_20260802.py:1796-1933 | on tables equal to the snapshot the only possible failure is a taken link key, and it happens exactly when two mapped links share turn and ref |
| EvidenceExecutor.RemapEndsAsPlanned | scripts/apply_canonical_repair_artifact_20260802.py:1796-1933 | the owner's tools, links and chains are then exactly the planned ones, other owners' rows are unchanged, and every tool and chain is live or quarantined verbatim |
| EvidenceExecutor.LinkKeysCanCollide | virtual_context/storage/postgres.py:478-483 | a plan whose two mapped links differ only in origin is refused by the link table's primary key |
| ActorCards.CardStore.InvalidateActorCards | scripts/apply_canonical_repair_artifact_20260802.py:1328-1505 | cross-tenant evidence is the only error; otherwise profiles are invalidated and exactly the owner's citations detached |
| ActorCards.CardStore.DeleteCanonicalTurns | virtual_context/storage/actor_card_transition_guards.py:91-190 | deleting the owner's turns row by row, with the trigger firing each time, is the set-wise deletion in any order |
| ActorCards.CardStore.SwapOut | scripts/apply_canonical_repair_artifact_20260802.py:2278-2296 | invalidate, clear, delete in that order end in the specified state |
| ActorCards.SwapKeepsCards | scripts/apply_canonical_repair_artifact_20260802.py:1334-1489 | after the guard the trigger deletes nothing: all entries and all foreign sources stay, all own citations go, and every citing profile is invalid |
| ActorCards.UndetachedLosesExactly | virtual_context/storage/actor_card_transition_guards.py:91-190 | without detaching, deletion keeps exactly the entries no own turn source cites |
| ActorCards.SwapExactly | scripts/apply_canonical_repair_artifact_20260802.py:1328-1505 | refused exactly for another tenant's citation of the owner's history; otherwise the turns, facts, entries, citations and marked profiles that remain are exactly the stated ones |
| ActorCards.DeletedExactly | virtual_context/storage/actor_card_transition_guards.py:91-190 | without detaching: exactly which turns, entries and citations are left, and which profiles are marked |
| Artifact.LoadArtifact | scripts/apply_canonical_repair_artifact_20260802.py:920-1034 | the loader accepts if and only if the declarative reading of rows, groups, memberships and mappings holds |
| Artifact.AcceptedExactly | scripts/apply_canonical_repair_artifact_20260802.py:920-1034 | field by field, an artifact is accepted if and only if its rows read as stored and differ, each group is at two positions, one user text and one assistant text, each membership is the one its two rows call for, and each mapping has a group or a quarantine class |
| Artifact.GroupIsPair | scripts/apply_canonical_repair_artifact_20260802.py:965-971 | every accepted group is one pure user row and one pure assistant row |
| Artifact.SourceNamesItsPair | scripts/apply_canonical_repair_artifact_20260802.py:973-1018 | a membership names a user row, and its assistant is the one other row of that group |
| Artifact.GroupHasOneSource | scripts/apply_canonical_repair_artifact_20260802.py:973-1018 | every group has exactly one membership, which fences its two rows |
| Artifact.AcceptedCounts | scripts/apply_canonical_repair_artifact_20260802.py:920-1018 | memberships, user rows, assistant rows and groups are equally many, and rows twice as many |
| ArtifactBuilder.BuildGroups | scripts/rebuild_men_canonical_from_discord_20260802.py:906-1165 | the checks in order succeed if and only if every delivery is good evidence given those before it, ambiguous archive matches included, and yield its pair and membership |
| ArtifactBuilder.EvidenceExactly | scripts/rebuild_men_canonical_from_discord_20260802.py:906-1030 | the build goes through if and only if every delivery has fresh ids as declared, a trigger of the guild with agreeing archive events, and responses of the bot that refer to it or are plainly recovered, one of them not blank |
| ArtifactBuilder.BuiltExactly | scripts/rebuild_men_canonical_from_discord_20260802.py:1020-1134 | every field of the two rows and the membership that the k-th delivery yields |
| ArtifactBuilder.BuiltIsAccepted | scripts/rebuild_men_canonical_from_discord_20260802.py:906-1185 | whatever the loop builds with distinct ids passes the loader's row, group and membership checks |
| ArtifactBuilder.BuiltKeysDistinct | scripts/rebuild_men_canonical_from_discord_20260802.py:1182-1185 | the sort-key and source-coverage checks never fire |
| ArtifactBuilder.PlainIdsNeverCollide | scripts/rebuild_men_canonical_from_discord_20260802.py:401-402 | with injective id derivation and comma-free response ids the id check never fires either |
| ArtifactBuilder.MapOldGroups | scripts/rebuild_men_canonical_from_discord_20260802.py:1244-1290 | each old group is listed once; a non-negative one is mapped to g if and only if its rows vouch for g and for no other group, and the class says which of the four cases holds |
| ArtifactBuilder.ReplacementVouches | scripts/rebuild_men_canonical_from_discord_20260802.py:1187-1243 | an old row is identified with a row of group g if and only if it vouches for g: by the source of a built user row with equal sender and body, or, with a blank or unknown source, by a non-blank reply that exactly one built assistant row repeats |
| ArtifactBuilder.MapsExactly | scripts/rebuild_men_canonical_from_discord_20260802.py:1244-1290 | so a group's target and class follow from what its rows vouch for, the last of the rows sharing an id speaking |
| ArtifactBuilder.BuildArtifact | scripts/rebuild_men_canonical_from_discord_20260802.py:906-1290 | fails exactly on bad evidence or when two built rows share an id, and every artifact it returns is one the loader accepts |
| ChannelBackfill.CanonicalTable.UpdateChannelsIfEmpty | virtual_context/storage/postgres.py:10685-10755 | one guarded update per key fills, per column, only what SQL trims to empty |
| ChannelBackfill.CanonicalTable.BackfillChannels | virtual_context/engine.py:4570-4752 | the two passes and the write amount to the specified run; a limit stops it at the first row without receipt before which that many upgrades were collected |
| ChannelBackfill.FillIs | virtual_context/engine.py:4641-4690 | an id and a label come from the user's raw content if the row has user text, else from the assistant's if it has such text, and an id else from the key of the row's origin or the conversation; a raw content that is needed and cannot be decoded gives nothing |
| ChannelBackfill.KeyChannelExactly | virtual_context/engine.py:70-76 | a key gives an id exactly when, stripped, it is agent, a name, a provider, channel or group and the id, joined by colons, with sk before them or not |
| ChannelBackfill.RunWrites | virtual_context/engine.py:4621-4752 | a column of spaces takes, stripped, what was proposed; the label of a row that knows only its channel is the one label which rows of that channel have, if they have one |
| ChannelBackfill.StopsExactly | virtual_context/engine.py:4632-4640 | a limited pass ends before the first row without receipt that has that many proposals ahead of it |
| ChannelBackfill.RunOverwritesNothing | virtual_context/engine.py:4621-4740 | under any limit a run overwrites no stored column, touches no other column and no receipted row |
| ChannelBackfill.OneRunSuffices | virtual_context/engine.py:4621-4740 | if no id to be written is padded, one unlimited run with label propagation is a fixed point |
| ChannelBackfill.TwoRunsAlwaysSuffice | virtual_context/engine.py:4621-4740 | a third unlimited run never changes anything |
| ChannelBackfill.OneRunExactly | virtual_context/engine.py:4621-4740 | for every table a second unlimited run is a no-op if and only if the first leaves no row without a label in a channel left with exactly one |
| ChannelBackfill.OneRunExactlyForUnpaddedKeys | virtual_context/engine.py:4670-4679 | for any set of origins, blank ones included, one run suffices for every table with those origins if and only if no id derived for one of them has leading whitespace |
| ChannelBackfill.PaddedKeyExists | virtual_context/engine.py:73-75 | the key grammar admits such an id |
| SenderBackfill.SenderTable.BackfillSenders | virtual_context/engine.py:4406-4568 | the loop, the fill and the swap amount to the row-wise run; a limit stops it at the first row before which that many writes were collected |
| SenderBackfill.RunWrites | virtual_context/engine.py:4455-4558 | a sender changes exactly to the name its raw text or else its actor's profile gives, where only spaces are stored, or to its own actor's, where another participant's is stored with at most spaces around |
| SenderBackfill.ProposedFor | virtual_context/engine.py:4479-4530 | and a row counts towards the limit exactly when there is such a name, whether the column admits it or not |
| SenderBackfill.StopsExactly | virtual_context/engine.py:4479-4482 | a limited run visits the shortest stretch of rows that has so many of them |
| SenderBackfill.OnlySmearsAreOverwritten | virtual_context/storage/postgres.py:10624-10683 | a stored sender changes only from another participant's name to the row's own actor's name |
| SenderBackfill.OneRunExactly | virtual_context/engine.py:4479-4558 | a second run is a no-op if and only if no row was filled from raw text with another participant's name |
| SenderBackfill.TwoRunsSuffice | virtual_context/engine.py:4479-4558 | the second run makes only smear corrections, on rows the first filled from raw text, and a third changes nothing |
| SenderBackfill.SecondRunCorrects | virtual_context/engine.py:4421-4423 | a two-row conversation on which the second run is not a no-op |
| GreedyAlignment.AlignWithoutLlm | benchmarks/beam/judge.py:222-266 | the chosen pairs are at or above the threshold and share no end, and every pair at or above it meets a chosen one that scores higher, or the same with the larger system item, or the same with that and a reference item as large; the output replaces exactly the chosen system items |
| GreedyAlignment.LeftOutIsBlocked | benchmarks/beam/judge.py:244-264 | a candidate left out meets a used end or a chosen pair that sorts before it |
| GreedyAlignment.GreedyIsHalfOptimal | benchmarks/beam/judge.py:233-264 | the choice is an injective, maximal matching with at least half the total of any other matching |
| GreedyAlignment.HalfIsTight | benchmarks/beam/judge.py:233-264 | no better factor holds |
| StructuredSummary.StrictStructuredSummary | virtual_context/types.py:1642-1795 | the parser accepts exactly the payloads whose shape parses to a well-formed value, and returns that value or the empty one |
| StructuredSummary.AcceptsExactly | virtual_context/types.py:1642-1795 | accepted are exactly the payloads with these keys, this version, these kinds, lengths and digests, written out |
| StructuredSummary.DecodedFields | virtual_context/types.py:1642-1795 | every field of what is decoded is the payload's field of that name |
| StructuredSummary.EncodeKeepsExactlyAdmissible | virtual_context/types.py:1586-1639 | a value of any field types survives encoding and decoding if and only if it is admissible; any other is stored as the empty payload |
| StructuredSummary.ReencodeReturnsPayload | virtual_context/types.py:1586-1795 | re-encoding returns a payload if and only if it is the empty one or accepted with the current keys; a legacy one gains the missing keys |
| StructuredSummary.AllOrNothing | virtual_context/types.py:1682-1795 | every claim or none; each accepted claim has one requester source quoted in full, so at most 800 characters |
| SpeakerHandles.NormalizeSpeakerHandleBase | virtual_context/types.py:2023-2043 | the character loop, both trims and the fallback compute the specified base |
| SpeakerHandles.SqueezeIs | virtual_context/types.py:2033-2038 | the loop keeps each ASCII letter and digit and one underscore for the separators that follow one, in order, and nothing else |
| SpeakerHandles.BaseIs | virtual_context/types.py:2039-2043 | of that, what lies between leading digits or underscores and trailing underscores, cut to 24 and trimmed again; user when empty or the engine's own name |
| SpeakerHandles.BaseIsCanonical | virtual_context/types.py:2023-2043 | every name gives a letter-led, squeezed, non-reserved base of at most 24 characters |
| SpeakerHandles.BaseFixedExactly | virtual_context/types.py:2023-2043 | normalization fixes those bases and nothing else |
| SpeakerHandles.NormalizeIdempotent | virtual_context/types.py:2023-2043 | normalizing twice is normalizing once, if case folding fixes the base alphabet |
| SpeakerHandles.RankedHandleIsValid | virtual_context/types.py:2008-2056 | below ten million ranks the handle is the whole base plus the rank, and valid |
| SpeakerHandles.HandleIs | virtual_context/types.py:2046-2056 | for every base and rank: the base alone up to rank 1, else base, point and rank, the base cut so that all has 32 characters |
| SpeakerHandles.RankedHandleInjective | virtual_context/types.py:2046-2056 | base and rank can be read back from the handle |
| SpeakerHandles.TruncationCollides | virtual_context/types.py:2046-2056 | at ten million two different bases get the same handle |
| HistoryOffset.OffsetInRange | virtual_context/types.py:1344-1390 | the offset always slices the history |
| HistoryOffset.OffsetIs | virtual_context/types.py:1344-1390 | a watermark inside the history is the offset; past it the offset is the number of messages of compacted turns among the newest, or 0 without an index |
| HistoryOffset.OffsetExactlyWhen | virtual_context/types.py:1366-1390 | for a history of any length it counts the messages of compacted turns if and only if the watermark passes the history, is zero, or is even over an untrimmed history |
| HistoryOffset.TrimmedSkipsTooMuch | virtual_context/types.py:1367-1368 | a trimmed history of which it skips two messages that are not compacted |
| Pagination.ChannelMessages | scripts/export_discord_guild_transcript_20260802.py:264-307 | the backward loop ends on every server, honest or not, and computes the recursive crawl |
| Pagination.BackwardTraced | scripts/export_discord_guild_transcript_20260802.py:264-307 | on any server the crawl is a list of requests, each after a full page of new ids and below the least of them, and the last one settles which error or which items are returned |
| Pagination.BackwardIsExact | scripts/export_discord_guild_transcript_20260802.py:264-307 | against an honest server that only gains newer messages, it returns each id at or below the mark exactly once and no other |
| Pagination.MessagesAfter | scripts/export_discord_guild_transcript_20260802.py:310-336 | on every server on which it ends the forward loop computes the drift |
| Pagination.ForwardTraced | scripts/export_discord_guild_transcript_20260802.py:310-336 | on any server on which it ends the loop is a list of requests, each after a full page and above the largest id of it, and the last one settles the error or the newer items of all pages |
| Pagination.BoundedEnds | scripts/export_discord_guild_transcript_20260802.py:322-336 | it ends on every server whose ids are bounded, honest or not |
| Pagination.AlwaysFullNeverEnds | scripts/export_discord_guild_transcript_20260802.py:322-336 | it never ends on a server that always has a full page of newer messages |
| Pagination.DriftFindsAll | scripts/export_discord_guild_transcript_20260802.py:310-336 | against an honest server of a channel that may grow meanwhile, if the loop ends it returns each id above the mark that the channel held at the last request exactly once |

## Left out

- Store backends, the ingest reconciler, compaction, retrieval, tagging, LLM judging, Discord HTTP and command lines: code without a deep property here, or opaque libraries.
- Concurrency below one step: a Redis WATCH/MULTI save, one hydrate and one transaction of the repair are atomic steps; thread interleavings inside a worker are not modelled.
- SessionProtocol.CommittedIndexesGrow: assumes covered hydrates, because without them it is false, and compares entries without their canonical id, which a completed turn may reassign. Removing entries by record editing (virtual_context/core/record_editing.py:101), and rebuilding or clearing the live index from canonical rows (virtual_context/engine.py:1440, 2758), are no steps of the protocol: they replace the index by design.
- SessionProtocol.HydrateExactly: for a hydrate with an own note above the stored version, which only an earlier generation leaves, the converse needs distinct stored ids and a rebuilt index below 5000 entries (`FullIndexContinuesAll`: a full index may continue anything).
- SessionProtocol.NothingResurrected: assumes that undeleting a tombstone raises the generation; `UndeleteExactly` has the other case.
- Tombstone expiry after a day, the administrative marker repair and the lifecycle lease are not steps of the session protocol.
- Checkpoint: the recovery inside hydrate (virtual_context/engine.py:2016-2027) raises the two markers independently of each other and is not one of the operations.
- LiveRefinement.LoadUncompactedGroups: without the protected tail, the limit and the batches of 200 groups; the id carried by a merged row is left empty.
- TurnTags: tags, timestamps and the remove and replace operations of the index.
- SessionStates: the state fields other than generation, version and index.
- EvidencePlan and EvidenceExecutor: the sorted order of the corrupt refs and of the mapped links is any order; reasons are an enumeration; quarantine rows carry no timestamps.
- Artifact and ArtifactBuilder: the pinned counts, digests and guild ids, checksummed files, and row columns that no check reads (dates, raw content, reply fields); tenant id is one constant; malformed timestamps, and the lookup of archived events by channel, sender and time, whose result is an input.
- ActorCards: statements of the swap that touch neither cards nor turns nor facts; the row locks.
- ChannelBackfill and SenderBackfill: report counters, dry runs and the lifecycle-epoch fence; the order in which keys are written is any order.
- GreedyAlignment: scores are real numbers and ties are broken by Python's tuple order; floating-point rounding of the similarity ratio is not modelled.
- StructuredSummary: a claims field holding a list instead of a tuple, string subclasses and dictionary keys that are not strings.
- SpeakerHandles: Unicode case folding is a parameter.
- Pagination: a returned object is its numeric id, and the backward loop's `seen` compares numbers where the script compares id strings (scripts/export_discord_guild_transcript_20260802.py:284-291), so "007" and "7" are one item here and two there; transport errors are one error response.
