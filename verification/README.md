# Verified models of a Lightning node's crash-safe state machines

This project models, in Dafny, the parts of the node whose correctness is hardest to see by reading: state kept both in memory and on disk through failed writes and restarts, the Bitcoin scripts that decide who may spend a channel's outputs, and a few algorithms with exact specifications. Code that updates objects and buckets step by step is modelled by classes and loops proved against functions on values; the properties are then proved about those functions, over all inputs and all runs.

`dafny verify dfyconfig.toml` checks everything.

| files | subject |
|---|---|
| `CircuitState`, `CircuitInvariants`, `CircuitEffects`, `CircuitRuns`, `CircuitHistory`, `CircuitLookup`, `CircuitMap` | payment circuits: the state, what each operation keeps, what it does key by key, whole runs and what they remember, when the lookup finds everything, and the class with its loops and rollbacks |
| `Verdicts`, `Switch` | the three-queue split of `ForwardPackets` |
| `Script`, `ChannelScripts`, `ScriptBytes`, `ScriptSizes`, `Spends` | a script engine, the channel's output scripts, scripts as bytes with pay-to-script-hash, and the witness builders |
| `PkgFilter`, `FwdPkgs`, `Packager`, `FwdLifecycle` | acknowledgement filters and forwarding packages |
| `Channel`, `ChannelRuns` | commitment chains, the revocation log and the updates still to be signed |
| `CrashRuns` | the circuit map and its channels together: which keystones survive a crash |
| `Amp` | secret sharing of multi-path payments |
| `FeatureDeps`, `ForwardingLog`, `Paginate`, `Sequencer` | dependency validation, unique timestamps, pagination, ID allocation |

## How the source is rendered

- A bucket is a map, a transaction is atomic, and whether it commits is an argument. A restart forgets memory and rebuilds it from the maps.
- A pointer to a payment circuit is a value with an identity of its own; its two mutable fields are kept in maps keyed by the pointer. The order in which a Go map is walked is arbitrary: loops pick any element.
- Randomness, signatures and the outcome of a sort are arguments or arbitrary choices. Hash functions and signature checks are parameters; where a theorem needs that two values do not collide, it says which two.
- The script builder and the script engine belong to the txscript library, which is not part of the repository; the model follows their published behaviour.
- Integer widths are written out where they matter: the 16-bit `count + 7` of a filter, 64-bit HTLC IDs, sequences and offsets, 32-bit locks.

## What turned out not to hold

The members named state exactly when each property holds, show a failing case, or say on which runs it is kept.

- Memory and disk of the circuit map agree after a commit unless it stopped at a circuit that does not serialize, and after a trim unless its write failed with something to trim (`CommitCoherence`, `TrimCoherence`). Opening keeps them together exactly when no circuit had a keystone and the batch is one to one (`OpenCoherence`).
- A successful delete removes every keystone that names its circuits where memory and disk agree; after an unwritten trim one can stay behind without its circuit (`DeleteEffect`, `DeleteLeavesStray`).
- A trim leaves the keys below its start exactly when the keys above have no gap (`TrimExact`), and leaves a stale entry in the hash index whenever it trims anything, because the keystone is cleared before the entry is looked up (`TrimIndexSound`, `StaleEntryMisleads`).
- `LookupByPaymentHash` finds every opened circuit on every run whose opens are one to one and whose restarts find no circuit with two keystones (`LookupCompleteInRun`), but not in all reachable states: a trim whose write fails lets a circuit be named by two keystones, and after a restart and a trim of one of them the circuit is open and not found (`LosingRun`). On such runs without a trim it finds nothing else either (`LookupExactInRun`). A startup leaves everything findable exactly when it trims no key that a circuit carries while the circuit stays open under another (`TrimFindsIff`, `RestartFindsIff`).
- After a crash exactly the keystones of persisted HTLCs survive startup, of those that cleaning after closed channels leaves, if and only if cleaning takes only the last of the HTLCs that are not persisted (`PersistedSurviveIff`); otherwise it leaves a gap at which the trim stops, and later ones survive (`GapRun`). This is over runs that delete a circuit only once its HTLC is persisted.
- A restored channel whose flag is cleared in memory before it is loaded again logs the zero commitment on its next advance (`ForgottenLogsZero`); on all other runs with numbered diffs the log is exact (`RevocationLogExact`).
- `GetSigScript` pushes an item that is a single zero byte as the empty item; it leaves exactly the witness if and only if there is none (`GetSigScript`, `ZeroItemLost`).
- The local updates handed to `AdvanceCommitChainTail` are documented as stored in case of a restart. They are stored only once this channel has itself revoked a commitment (`LocalUpdatesStoredIff`, `LocalUpdatesLost`).
- A relative lock constrains nobody when its disable bit is set (`LockIsVoid`); delays of 16 bits never have it.
- A filter has a byte for every index only up to a count of 65528 (`RoomUpTo`).
- Two shards under one live attempt ID lose a share; what is missing from the root is exactly the XOR of the shares lost (`Conservation`).
- A forward page from the largest 64-bit offset starts over, and a backward page from offset 1 skips a key 0 (`StartIsBeyond`).
- Payment IDs stop increasing exactly when the sequence wraps (`WrapBreaksOrder`).
- The asset ID passed to `NewShardTracker` is not stored, so every MPP record carries zero (`Amp.ShardTracker.constructor`).

## Model

| member | source | states |
|---|---|---|
| `CircuitInvariants.AddedIffFirst` | htlcswitch/circuit_map.go:809-840 | a circuit of a batch is an add exactly when its key was not pending and no earlier circuit of the batch has it |
| `CircuitInvariants.AddsAreFresh` | htlcswitch/circuit_map.go:809-840 | the adds of a batch have distinct keys, none of them pending before |
| `CircuitInvariants.CommitFacts` | htlcswitch/circuit_map.go:781-912 | pending index and circuit bucket after a commit: the old entries unchanged plus exactly the added circuits |
| `CircuitInvariants.CommitCoherence` | htlcswitch/circuit_map.go:781-912 | a commit, successful or rolled back, keeps memory and disk equal if and only if it did not stop on an encoding error |
| `CircuitEffects.VerdictExact` | htlcswitch/circuit_map.go:809-840 | a circuit is dropped exactly if the one holding its key, the pending one or the first of the batch, has a keystone or was not loaded from disk, and failed exactly if that one has no keystone and was loaded |
| `CircuitEffects.CommitReports` | htlcswitch/circuit_map.go:781-912 | which circuits the three lists hold, in terms of the map and the batch, also when the commit fails; together they are the batch |
| `CircuitEffects.CommitEnds` | htlcswitch/circuit_map.go:842-912 | the error exactly: a new circuit that does not serialize, else a failed write with something new |
| `CircuitEffects.CommitEffect` | htlcswitch/circuit_map.go:781-912 | index and bucket gain exactly the new circuits; the index alone on an encoding error; nothing when the write fails |
| `CircuitEffects.OpenIsNeverFailed` | htlcswitch/circuit_map.go:816-832 | a key whose circuit is open is never failed back; it is dropped |
| `CircuitInvariants.OpenCoherence` | htlcswitch/circuit_map.go:932-1003 | a successful open keeps memory and disk equal and linked if and only if its circuits had no keystone and keys are paired one to one |
| `CircuitInvariants.OpenKeepsIndexSound` | htlcswitch/circuit_map.go:932-1012 | opening new keys, each for one circuit of the batch, adds no misleading hash index entry |
| `CircuitEffects.OpenEnds` | htlcswitch/circuit_map.go:932-975 | the first refused keystone decides the error, its outgoing key before its circuit; on any error nothing changes |
| `CircuitEffects.OpenEffect` | htlcswitch/circuit_map.go:932-1012 | a successful open of a batch that is one to one adds exactly its keystones to both indexes, the circuits and the bucket |
| `CircuitInvariants.LookupExact` | htlcswitch/circuit_map.go:755-772 | the lookup returns every opened circuit with the hash, and only those while the index is sound |
| `CircuitInvariants.TrimExact` | htlcswitch/circuit_map.go:684-733 | the loop removes exactly the opened keys from the start upwards if and only if they are contiguous and the IDs do not wrap into keys below the start |
| `CircuitInvariants.TrimKeepsValid` | htlcswitch/circuit_map.go:684-733 | a trim keeps the basic invariant, written or not |
| `CircuitInvariants.TrimCoherence` | htlcswitch/circuit_map.go:684-733 | a trim keeps memory and disk equal if and only if it was written or had nothing to trim |
| `CircuitInvariants.TrimIndexSound` | htlcswitch/circuit_map.go:684-712 | the hash index stays sound if and only if nothing was trimmed |
| `CircuitInvariants.StaleEntryMisleads` | htlcswitch/circuit_map.go:684-712 | after a trim and a new open of the same key, a lookup by the old hash returns the new circuit |
| `CircuitEffects.TrimEffect` | htlcswitch/circuit_map.go:684-733 | without gaps, exactly the keys from the start upwards go, and their circuits have no keystone any more; pending circuits stay |
| `CircuitInvariants.FailedDeleteRestores` | htlcswitch/circuit_map.go:1065-1180 | a delete whose write fails gives back the state exactly, in whatever order the circuits are put back |
| `CircuitInvariants.DeleteCoherence` | htlcswitch/circuit_map.go:1065-1180 | every delete keeps memory and disk equal and linked, and the hash index sound |
| `CircuitEffects.DeleteEffect` | htlcswitch/circuit_map.go:1065-1160 | a successful delete: pending index, closed set and circuit bucket lose exactly the named keys, opened index, keystone bucket and hash index exactly the keystones of their circuits; nothing else changes |
| `CircuitEffects.DeleteTakesKeystones` | htlcswitch/circuit_map.go:1120-1147 | where memory and disk agree, the keystones that go are those naming a deleted circuit |
| `CircuitEffects.DeleteLeavesStray` | htlcswitch/circuit_map.go:1120-1147 | otherwise, after an unwritten trim, a keystone stays without its circuit |
| `CircuitEffects.DeletedIsAdded` | htlcswitch/circuit_map.go:781-912 | the key of a deleted circuit, committed again, is an add |
| `CircuitInvariants.CleanKeepsDisk` | htlcswitch/circuit_map.go:276-474 | cleaning after closed channels keeps the circuit bucket well keyed, and leaves no keystone without its circuit and no circuit with two |
| `CircuitEffects.CleanEffect` | htlcswitch/circuit_map.go:276-474 | exactly the keystones with a closed channel on either side go, and exactly the circuits with a closed channel or such a keystone; the zero channel is never closed |
| `CircuitInvariants.RestoreCoherence` | htlcswitch/circuit_map.go:482-599 | loading gives memory equal to disk if and only if no two keystones name one circuit and stray keystones are only those of the zero channel |
| `CircuitLookup.RestoreFindsAll` | htlcswitch/circuit_map.go:482-599 | right after loading, every opened circuit is found by its hash, even one that two keystones name |
| `CircuitLookup.FailedTrimDoubles` | htlcswitch/circuit_map.go:684-733 | a trim whose write fails, followed by a new open, leaves two keystones for one circuit on disk |
| `CircuitLookup.TrimFindsIff` | htlcswitch/circuit_map.go:684-772 | after loading and one trim every opened circuit is found if and only if no circuit that stays open carried a key that was trimmed |
| `CircuitLookup.RestartFindsIff` | htlcswitch/circuit_map.go:639-676 | after a whole startup it is if and only if, of the keystones loaded, none that a circuit carries is trimmed while the circuit stays open under another; which are trimmed is read off the loaded keys and the channels' indices |
| `CircuitLookup.LosingRun` | htlcswitch/circuit_map.go:684-733 | a run from a coherent map, by an unwritten trim, a new open and a restart, to an open circuit that is not found |
| `CircuitInvariants.RestartCoherence` | htlcswitch/circuit_map.go:220-250 | a startup that succeeds on a coherent disk gives a coherent map |
| `CircuitEffects.StartupLoads` | htlcswitch/circuit_map.go:482-599 | a map that is up holds exactly the circuits that cleaning left, all marked as loaded from disk, and no others are; none is closing |
| `CircuitEffects.StartupSucceedsIff` | htlcswitch/circuit_map.go:220-250 | a startup succeeds exactly if its writes do and, for each live channel, the next index is known and the trim is written or has nothing to trim |
| `CircuitEffects.StartupLeaves` | htlcswitch/circuit_map.go:220-250 | what a failed startup leaves on disk: what was cleaned stays cleaned |
| `CircuitEffects.StartupSpares` | htlcswitch/circuit_map.go:639-676 | pending channels and the zero channel keep every keystone that cleaning leaves |
| `CircuitInvariants.RestartTrimsIff` | htlcswitch/circuit_map.go:639-676 | after startup a live channel has exactly the keystones below its next HTLC index, of those that cleaning leaves, if and only if these can be trimmed: no gap from the index upwards, and no wrap into the keys below it |
| `CircuitRuns.RunSane` | htlcswitch/circuit_map.go:174-197 | the basic invariant holds in every state of every run |
| `CircuitRuns.ReportsAreNew` | htlcswitch/circuit_map.go:781-912 | a commit puts on disk exactly the keys it reports as adds, all new; no other step adds a key |
| `CircuitRuns.AddedOncePerRemoval` | htlcswitch/circuit_map.go:781-912 | over every run a key is reported in Adds at most once between two removals of it from disk |
| `CircuitRuns.ResolvedOncePerDelete` | htlcswitch/circuit_map.go:1016-1057 | without a restart, at most one fail or close succeeds per circuit before it is deleted |
| `CircuitHistory.FailedIffLoaded` | htlcswitch/circuit_map.go:809-840 | over every run: a commit fails back a pending key exactly if its circuit was loaded by the last startup, has been pending ever since, and has no keystone |
| `CircuitHistory.FailedWasNeverOpen` | htlcswitch/circuit_map.go:809-840 | and without a trim in between, it had none at any time since the startup |
| `CircuitHistory.OpenNeverFailedInRun` | htlcswitch/circuit_map.go:816-820 | in every state of a run as in `TidyRunLinked`, the key of an open circuit is never failed back |
| `CircuitHistory.ResolvableIff` | htlcswitch/circuit_map.go:1016-1057 | over every run since a startup: failing or closing succeeds exactly if the circuit is there and nothing has resolved it since it was added; else the error says which |
| `CircuitRuns.CarefulRunCoherent` | htlcswitch/circuit_map.go:174-197 | over every run without the lossy steps memory and disk agree, through failed writes and restarts |
| `CircuitLookup.TidyRunLinked` | htlcswitch/circuit_map.go:174-197 | over every run whose opens are one to one and whose restarts find no circuit named twice, opened and pending circuits stay linked and indexed, through unwritten trims and encoding errors |
| `CircuitLookup.LookupCompleteInRun` | htlcswitch/circuit_map.go:755-772 | in every state of such a run the lookup returns every opened circuit |
| `CircuitLookup.TrimlessRunSound` | htlcswitch/circuit_map.go:755-772 | on such runs without a trim the hash index holds only opened circuits, encoding errors and stray keystones at a restart included |
| `CircuitLookup.LookupExactInRun` | htlcswitch/circuit_map.go:755-772 | in every state of such a run without a trim the lookup returns exactly the opened circuits with the hash |
| `CircuitLookup.FailedDeleteInRun` | htlcswitch/circuit_map.go:1065-1160 | anywhere in such a run a delete whose write fails gives back the state before it exactly |
| `CircuitMaps.CircuitMap.CommitCircuits` | htlcswitch/circuit_map.go:781-912 | reconcile, encode, write, and roll back on failure: state and reported actions are those that the lemmas on commits are about |
| `CircuitMaps.CircuitMap.OpenCircuits` | htlcswitch/circuit_map.go:932-1003 | check, write, then set keystones and both indexes |
| `CircuitMaps.CircuitMap.TrimOpenCircuits` | htlcswitch/circuit_map.go:684-733 | the trim loop ends and removes the specified run of keys, in memory first |
| `CircuitMaps.CircuitMap.LookupByPaymentHash` | htlcswitch/circuit_map.go:755-772 | returns the specified circuits |
| `CircuitMaps.CircuitMap.DeleteCircuits` | htlcswitch/circuit_map.go:1065-1160 | removal from memory, the transaction, and putting back on failure: the state is the one that the lemmas on deletes are about |
| `CircuitMaps.CircuitMap.CleanClosedChannels` | htlcswitch/circuit_map.go:276-474 | removes circuits and keystones of closed channels from both buckets |
| `CircuitMaps.CircuitMap.RestoreMemState` | htlcswitch/circuit_map.go:482-599 | rebuilds the four indexes from the buckets and prunes strays of the zero channel |
| `CircuitMaps.CircuitMap.TrimAllOpenCircuits` | htlcswitch/circuit_map.go:639-676 | trims every live channel at its next HTLC index, stopping at the first error |
| `CircuitMaps.CircuitMap.Restart` | htlcswitch/circuit_map.go:220-250 | clean, restore and trim in sequence |
| `Verdicts.SelectCovers` | htlcswitch/circuit_map.go:809-912 | adds, drops and fails together are the batch |
| `Verdicts.DowngradedLists` | htlcswitch/circuit_map.go:861-912 | on failure there are no adds, the same drops, and all the rest, adds and fails, are fails |
| `Verdicts.SplitPackets` | htlcswitch/switch.go:634-684 | the in-order head scan gives each packet the verdict of its circuit and uses up all three lists |
| `Switch.FirstPass` | htlcswitch/switch.go:634-650 | responses are routed in order until one is not taken; if all are, each add gets a circuit of its own |
| `Switch.KindsAppend` | htlcswitch/switch.go:634-650 | adds and responses each keep their order |
| `Switch.KindsCover` | htlcswitch/switch.go:634-650 | and every packet is one or the other, as often as it comes |
| `Switch.ForwardPackets` | htlcswitch/switch.go:591-715 | nothing is committed if a response cannot be routed; otherwise an add is routed exactly if its circuit was added and failed back exactly if it was failed, also when the write fails, up to an add that cannot be routed |
| `Switch.ForwardedExact` | htlcswitch/switch.go:591-715 | in terms of the map before: an add is routed exactly if nothing held its key and the commit succeeded, failed back exactly if a circuit loaded from disk and not opened holds it, or nothing did and the commit failed |
| `Script.BlockDelay` | input/script_utils.go:767-811 | below 2^16 a relative lock means version 2, a block-based enabled lock and that many blocks |
| `Script.LockIsVoid` | input/script_utils.go:767-811 | a relative lock constrains nobody if and only if its disable bit is set |
| `Script.LockTimeMeaning` | input/script_utils.go:583-585 | an absolute lock (BIP-65) means an input that is not final and a lock time of the same unit no earlier than the expiry |
| `Script.BlockExpiry` | input/script_utils.go:583-585 | for an expiry in blocks: a lock time in blocks that has reached it |
| `Script.TimeExpiry` | input/script_utils.go:583-585 | for an expiry in seconds |
| `Script.SequenceMeaning` | input/script_utils.go:767-811 | a relative lock (BIP-112) in terms of version, disable bit, unit and low 16 bits, for all numbers |
| `Script.TrueIsNonZero` | input/script_utils.go:767-811 | an item counts as true exactly if it is not zero as a number, negative zero included |
| `ChannelScripts.SenderSpenders` | input/script_utils.go:267-354 | every witness stack: accepted if and only if it is a revocation, or a redemption or timeout with the signatures and confirmation these need |
| `ChannelScripts.ReceiverSpenders` | input/script_utils.go:506-603 | the same for received HTLCs, with the timeout only for a transaction whose lock time is not before the expiry |
| `ChannelScripts.DelayedSpenders` | input/script_utils.go:767-877 | second-level outputs, leased or not (and to-self outputs, which have the same script): revocation key at once, or the owner after the locks |
| `ChannelScripts.ToRemoteSpenders` | input/script_utils.go:1232-1278 | the remote's signature, one confirmation and any lease |
| `ChannelScripts.AnchorSpenders` | input/script_utils.go:1319-1336 | the owner's signature, or anyone after sixteen confirmations |
| `ChannelScripts.FundingSpenders` | input/script_utils.go:103-123 | the script does not depend on who is named first, exists exactly for 33-byte keys, and needs both signatures in key order |
| `ChannelScripts.GreaterIff` | input/script_utils.go:103-123 | the order of the keys is dictionary order of their bytes |
| `ScriptBytes.ParseSerializeIff` | input/signer.go:51-62 | with the builder's canonical pushes a list of opcodes survives the trip through bytes if and only if it pushes no single zero byte |
| `ScriptBytes.OpCodeBytes` | input/script_utils.go:267-354 | the byte of each opcode |
| `ScriptBytes.PushShapes` | input/signer.go:51-62 | the canonical push for each size of item |
| `ScriptBytes.GetSigScript` | input/signer.go:51-62 | fails exactly when a limit is exceeded; otherwise its bytes, run on an empty stack, leave the witness with single zero bytes emptied, so exactly the witness if and only if no item is one |
| `ScriptBytes.ZeroItemLost` | input/signer.go:51-62 | the witness of one zero byte, whose sig script leaves an empty item |
| `ScriptBytes.P2SHBytes` | input/script_utils.go:66-75 | the output's 23 bytes |
| `ScriptBytes.P2SHSpend` | input/script_utils.go:66-75 | the sig script of a witness without such items spends the hash output if and only if the script accepts the witness |
| `ScriptBytes.P2SHOnly` | input/script_utils.go:66-75 | every sig script that spends the output pushes the script last and satisfies it, unless it pushes one with the same hash |
| `ScriptSizes.SenderFits` | input/script_utils.go:267-354 | with compressed keys the script is at most one stack element and pushes no single zero byte, so that its bytes parse back to it |
| `ScriptSizes.ReceiverFits` | input/script_utils.go:506-603 | the same for received HTLCs |
| `ScriptSizes.DelayedFits` | input/script_utils.go:767-877 | the same for delayed outputs |
| `ScriptSizes.ToRemoteFits` | input/script_utils.go:1232-1278 | the same for outputs paying the other side, leased or not |
| `ScriptSizes.AnchorFits` | input/script_utils.go:1319-1336 | the same for anchors |
| `ScriptSizes.FundingFits` | input/script_utils.go:103-123 | the same for the funding output, with either key named first |
| `Spends.RevokeAccepted` | input/script_utils.go:363-382 | the revocation witness satisfies both HTLC scripts if and only if the signature is the revocation key's |
| `Spends.SenderRedeemAccepted` | input/script_utils.go:425-442 | accepted if and only if preimage, receiver's signature and confirmation are right |
| `Spends.SenderTimeoutAccepted` | input/script_utils.go:448-475 | accepted if and only if both signatures and the confirmation are right |
| `Spends.ReceiverRedeemAccepted` | input/script_utils.go:613-639 | accepted if and only if preimage, both signatures and the confirmation are right; with a preimage of another size, as a timeout |
| `Spends.ReceiverTimeoutAccepted` | input/script_utils.go:710-739 | accepted if and only if the lock time, the sender's signature and the confirmation are right |
| `Spends.SweepTx.ReceiverHtlcSpendTimeout` | input/script_utils.go:710-739 | sets the lock time unless -1 is passed; then only the signature, a non-final sequence and the confirmation are left to check |
| `Spends.SenderSafety` | input/script_utils.go:267-354 | who spends an offered HTLC is the revocation key, the receiver with the preimage, or both parties, or shows a hash collision |
| `Spends.ReceiverSafety` | input/script_utils.go:506-603 | who spends a received HTLC is the revocation key, both parties with the preimage, or the sender after the lock, or shows a hash collision |
| `Spends.SenderOutputSafety` | input/script_utils.go:66-75 | the same over all sig scripts as bytes: one that spends the output paying to the script's hash only pushes, and its items entitle the spender or show a collision with the script, its keys or its hash |
| `Spends.ReceiverOutputSafety` | input/script_utils.go:66-75 | the same for received HTLCs |
| `Spends.WitnessSpends` | input/signer.go:51-62 | a witness that ends in the script's bytes spends the output through its sig script if and only if it satisfies the script |
| `Spends.RevokeSpends` | input/script_utils.go:644-665 | from the signer to the spent output: revocation of either HTLC |
| `Spends.SenderRedeemSpends` | input/script_utils.go:425-442 | from the signer to the spent output: the receiver's claim on an offered HTLC |
| `Spends.SenderTimeoutSpends` | input/script_utils.go:448-475 | from the signer to the spent output: the timeout of an offered HTLC |
| `Spends.ReceiverRedeemSpends` | input/script_utils.go:613-639 | from the signer to the spent output: the claim on a received HTLC |
| `Spends.ReceiverTimeoutSpends` | input/script_utils.go:710-739 | from the signer to the spent output: the timeout of a received HTLC |
| `Spends.DelayedAccepted` | input/script_utils.go:921-971 | the one-item and the empty-item witness satisfy the two clauses of a delayed output if and only if signature and locks hold |
| `Spends.DelayedSpends` | input/script_utils.go:921-971 | from the signer to the spent output: both clauses of a delayed output |
| `Spends.CommitTimeoutAccepted` | input/script_utils.go:1109-1137 | the version check refuses only what an enabled lock refuses; otherwise accepted if and only if signature and locks hold |
| `Spends.SweepTx.HtlcSpendSuccess` | input/script_utils.go:882-916 | sets the first input's sequence and the version; for that input the delay then always holds, for every 32-bit delay, and for another exactly if its own sequence reaches it |
| `Spends.ToRemoteAccepted` | input/script_utils.go:1284-1307 | an error exactly without a key; otherwise accepted if and only if signature, lease and confirmation hold |
| `Spends.ToRemoteSpends` | input/script_utils.go:1284-1307 | from the signer to the spent output: the output paying the other side |
| `Spends.AnchorAccepted` | input/script_utils.go:1341-1373 | an error exactly without a key; the owner's and the anyone witness are accepted exactly under their conditions |
| `Spends.AnchorSpends` | input/script_utils.go:1341-1373 | from the signer to the spent output: both ways of spending an anchor |
| `Spends.MultiSigAccepted` | input/script_utils.go:157-182 | accepted if and only if each signature is its own key's, whichever side is named first |
| `Spends.FundingSpends` | input/script_utils.go:157-182 | from the two signatures to the spent funding output |
| `PkgFilters.RoomUpTo` | channeldb/forwarding_package.go:113-122 | the bytes allocated have room for every index if and only if the count is at most 65528 |
| `PkgFilters.MarksAfter` | channeldb/forwarding_package.go:131-138 | setting an index adds it to the set and changes nothing else |
| `PkgFilters.DecodeEncode` | channeldb/forwarding_package.go:193-213 | decoding gives back count and bits, whatever follows them |
| `PkgFilters.ByteOrder` | channeldb/forwarding_package.go:131-201 | count most significant byte first, then index 0 as the top bit of the first byte |
| `PkgFilters.PkgFilter.constructor` | channeldb/forwarding_package.go:113-122 | a new filter is the empty set |
| `PkgFilters.PkgFilter.Set` | channeldb/forwarding_package.go:131-138 | adds the index to the set |
| `PkgFilters.PkgFilter.Contains` | channeldb/forwarding_package.go:142-149 | membership in the set |
| `PkgFilters.PkgFilter.IsFull` | channeldb/forwarding_package.go:165-183 | whole bytes and remainder together: true exactly when every index below the count is in the set |
| `PkgFilters.PkgFilter.Size` | channeldb/forwarding_package.go:186-190 | the length of the encoding |
| `PkgFilters.PkgFilter.Encode` | channeldb/forwarding_package.go:193-201 | bytes that decode to the same filter |
| `PkgFilters.PkgFilter.Decode` | channeldb/forwarding_package.go:204-213 | succeeds exactly on long enough bytes, with the filter they hold |
| `Packagers.AckAtHeight` | channeldb/forwarding_package.go:792-829 | decodes, marks the indices and encodes; fails on bad bytes and on an index without a byte |
| `Packagers.FwdDb.AddFwdPkg` | channeldb/forwarding_package.go:459-521 | writes updates under 16-bit indices, and filters; higher indices and the forward filter of an earlier write stay |
| `Packagers.FwdDb.SetFwdFilter` | channeldb/forwarding_package.go:713-745 | writes the filter only if there is none |
| `Packagers.FwdDb.AckAddHtlcs` | channeldb/forwarding_package.go:752-788 | references are grouped by height in any order; each package gets exactly its indices, all or nothing |
| `Packagers.FwdDb.AckSettleFails` | channeldb/forwarding_package.go:840-890 | the same by destination and height; channels and packages that are gone are passed over |
| `FwdLifecycle.AckStepEffect` | channeldb/forwarding_package.go:752-890 | either acknowledgement: nothing changes if a package that is there has no byte for an index it is sent; otherwise each gains exactly the marks that the call's own references name for it, and nothing else |
| `FwdLifecycle.AckableIff` | channeldb/forwarding_package.go:792-829 | it succeeds exactly if every package that is there can take what it is sent |
| `Packagers.FwdDb.LoadFwdPkg` | channeldb/forwarding_package.go:582-684 | the package and its state as the specification reads them from disk |
| `FwdLifecycle.LoadsIff` | channeldb/forwarding_package.go:582-684 | when a package can be loaded at all |
| `FwdLifecycle.RewriteEffect` | channeldb/forwarding_package.go:459-521 | writing over a package: new updates first, what the old write had beyond them stays, and so does the forward filter |
| `FwdLifecycle.RewrittenStartsAnew` | channeldb/forwarding_package.go:934-948 | a package written where one was removed is loaded with its own updates and locked in, whatever the removed one had been through |
| `Packagers.FwdDb.Wipe` | channeldb/forwarding_package.go:952-967 | removes all packages of a channel and no others |
| `FwdLifecycle.Lifecycle` | channeldb/forwarding_package.go:582-684 | over every run of operations in any order, batching and repetition, a package is loaded with its updates, with the first forward filter set, with exactly those updates marked that references of successful acknowledgements name, and as completed exactly when that filter exists and every index is marked |
| `FwdLifecycle.StateOnlyAdvances` | channeldb/forwarding_package.go:17-36 | the state never moves back and the forward filter never changes |
| `FwdLifecycle.PresentIff` | channeldb/forwarding_package.go:934-967 | over every run exactly the packages written and not removed or wiped since are there |
| `Channels.OpenChannel.AppendRemoteCommitChain` | channeldb/channel.go:2200-2271 | the packagers' acknowledgements and the diff are written together; on any failure, also of the second acknowledgement after the first, the packages are as before |
| `Channels.OpenChannel.AdvanceCommitChainTail` | channeldb/channel.go:2424-2581 | promotes the pending commitment, logs the revoked one, writes the package and filters the unsigned updates, in one transaction |
| `Channels.OpenChannel.UpdateCommitment` | channeldb/channel.go:1587-1697 | the new local commitment and the two lists of updates, in one transaction |
| `Channels.OpenChannel.RevocationLogTail` | channeldb/channel.go:2689-2735 | the entry under the last key of the log, nil at height zero, and the errors of a missing and an empty log |
| `ChannelRuns.DiskExact` | channeldb/channel.go:1587-1697 | over every run, through failed writes, flags and restarts, the disk holds the local commitment of the last update, the remote commitment of the last diff advanced, the diff appended since, which of the two came last, and the flags set |
| `ChannelRuns.MemoryExact` | channeldb/channel.go:1587-1697 | memory holds the same two commitments, as long as the channel is not marked as restored |
| `ChannelRuns.LoadDependsOnDisk` | channeldb/channel.go:3710-3729 | what a restart loads is decided by the disk alone |
| `ChannelRuns.RestoredForgets` | channeldb/channel.go:3710-3729 | a channel marked as restored loses both from memory, and neither from disk |
| `ChannelRuns.TakesEffectIff` | channeldb/channel.go:1587-1697 | an update or an advance takes effect exactly without flags, with a pending diff for the advance, and if written; an update writes the status in memory |
| `ChannelRuns.AppendsIff` | channeldb/channel.go:2200-2271 | the error of an append exactly, from flags, acknowledgements and write |
| `ChannelRuns.FlaggedIsFrozen` | channeldb/channel.go:2200-2271 | once a flag is on disk nothing else there changes until one is cleared |
| `ChannelRuns.AppendAcks` | channeldb/channel.go:2230-2252 | an append acknowledges in each package exactly the adds, settles and fails its diff names |
| `ChannelRuns.AdvanceWritesPackage` | channeldb/channel.go:2424-2581 | an advance writes its package, ready to be loaded, and touches no other |
| `ChannelRuns.RevocationLogExact` | channeldb/channel.go:2424-2581 | over every run with numbered diffs that advances only while memory holds the disk's remote commitment, the log has one entry per height below the current one, the commitment then in force, and no other; looking up a height and the tail return exactly these |
| `ChannelRuns.ForgottenLogsZero` | channeldb/channel.go:2424-2581 | otherwise a restored channel whose flag is cleared before it is loaded again logs the zero commitment at height zero |
| `ChannelRuns.LogOnlyGrows` | channeldb/channel.go:3792-3802 | an entry, once logged, is found unchanged after every longer run |
| `ChannelRuns.NextIndexExact` | channeldb/channel.go:2587-2604 | over every run of a channel that is not restored the next HTLC index is exactly that of the last diff persisted, through failed writes and restarts |
| `ChannelRuns.RestoredIndexIsLost` | channeldb/channel.go:2587-2604 | a channel marked as restored has, after the next restart, the index of its pending diff, or zero without one |
| `CrashRuns.RunOk` | htlcswitch/circuit_map.go:639-733 | over every run of circuits and channels, crashes and unfinished startups included, whose deletes take only persisted HTLCs and whose cleaning takes only the last unpersisted ones of a channel, memory and disk agree and the keystones above a channel's persisted index have no gap |
| `CrashRuns.CleanContiguousIff` | htlcswitch/circuit_map.go:276-474 | what cleaning leaves of keystones without a gap has none if and only if it takes only the last ones |
| `CrashRuns.IndexIsPersisted` | channeldb/channel.go:2200-2271 | the index a channel is trimmed at covers exactly the HTLCs in diffs persisted so far, without assuming that it grows |
| `CrashRuns.PersistedSurviveIff` | htlcswitch/circuit_map.go:639-676 | a startup that succeeds after any such run leaves a channel exactly the keystones whose HTLC is in a persisted diff, of those that cleaning leaves, if and only if cleaning takes only the last of those in none |
| `CrashRuns.GapRun` | htlcswitch/circuit_map.go:276-474 | a run from a new node, of a commit, an open and a startup after one incoming channel closed, that keeps the keystone of an HTLC in no diff |
| `ChannelRuns.UnsignedAckedExact` | channeldb/channel.go:2512-2551 | through any run after a revocation the stored updates are exactly those the current remote commitment does not cover |
| `ChannelRuns.LocalUpdatesStoredIff` | channeldb/channel.go:2415-2423 | the local updates of an advance are stored if and only if the channel has revoked a commitment before |
| `ChannelRuns.LocalUpdatesLost` | channeldb/channel.go:2514-2523 | a first exchange after which they are gone |
| `ChannelRuns.LocalUpdatesExact` | channeldb/channel.go:1587-1697 | once stored they are, up to the next advance, exactly those that no commitment of ours has covered since |
| `ChannelRuns.FromKeeps` | channeldb/channel.go:2535-2542 | filtering leaves exactly the updates at or above the index, each as often as before |
| `ChannelRuns.FromAppend` | channeldb/channel.go:2535-2542 | and in their order |
| `Amp.XorInto` | amp/child.go:16-20 | the byte-wise XOR, also when the target is one of the arguments |
| `Amp.XorNatBits` | amp/child.go:16-20 | a bit of the XOR is set exactly where one of the two is |
| `Amp.ChildHashes` | amp/child.go:65-92 | a child's preimage is the hash of root, share and index, and its hash that of the preimage |
| `Amp.ChildrenDiffer` | amp/child.go:65-92 | children differ if root, share or index do, unless the two inputs or the two preimages collide |
| `Amp.SplitMerge` | amp/sharer.go:97-125 | halves XOR to the whole, and merging a child of one into the other undoes the split |
| `Amp.ZeroMerge` | amp/sharer.go:124-133 | merging a child into the zero sharer gives the sharer back |
| `Amp.Conservation` | amp/shard_tracker.go:93-156 | over every history root, current share and live shares differ by exactly the XOR of the shares overwritten, and every stored child is derived from the root |
| `Amp.Agreement` | amp/sharer.go:149-168 | with fresh IDs the root reconstructed from the live descriptors in any order is the sender's if and only if the current share is zero, and the children are then the sender's |
| `Amp.NoAgreement` | amp/sharer.go:149-168 | otherwise a child is the sender's only if its two inputs collide |
| `Amp.ReconstructChildren` | amp/sharer.go:149-168 | child i is derived from descriptor i and the XOR of all shares |
| `Amp.ShardTracker.constructor` | amp/shard_tracker.go:72-87 | starts with the root as current share; the asset ID is dropped |
| `Amp.ShardTracker.NewShard` | amp/shard_tracker.go:93-139 | one step of the history, and the records of the new shard; under a fresh ID it keeps root, current share and live shares in balance; an error changes nothing |
| `Amp.ShardTracker.CancelShard` | amp/shard_tracker.go:142-156 | keeps root, current share and live shares in balance, with an error exactly for an unknown ID |
| `Amp.CancelUndoesNew` | amp/shard_tracker.go:93-156 | cancelling an attempt gives back the tracker as it was before the attempt |
| `Amp.LastTakesTheRest` | amp/shard_tracker.go:93-139 | the last shard takes the current share and leaves zero; another takes the random share and leaves the rest |
| `Amp.LastAgrees` | amp/sharer.go:149-168 | so after a last shard with fresh IDs the receiver's root is the sender's |
| `FeatureDeps.AcyclicRanked` | feature/deps.go:43-71 | a table without cycles has a rank that falls along every dependency, so the recursion ends |
| `FeatureDeps.ValidateFeatures` | feature/deps.go:87-120 | nil exactly when everything reachable from every feature is present, in any order of visiting; an error names a missing bit that is reachable; a memo entry of true always means a present closure |
| `FeatureDeps.InitSupported` | feature/deps.go:125-133 | exactly the optional forms of the features, unchecked |
| `FeatureDeps.ValidateDeps` | feature/deps.go:78-83 | the same for a whole vector |
| `FeatureDeps.DefaultAcyclic` | feature/deps.go:51-71 | the default table has no cycle |
| `FeatureDeps.DefaultNeeds` | feature/deps.go:51-71 | the dependencies of the default table, by bit number |
| `ForwardingLogs.MakeUniqueTimestamps` | channeldb/forwarding_log.go:313-334 | a permutation of the batch with the pointwise least strictly increasing times above the sorted ones, whatever the sort does with equal times |
| `ForwardingLogs.StoreOverwritesIff` | channeldb/forwarding_log.go:134-177 | the first free time is used; an entry is overwritten if and only if all 101 times tried are taken |
| `ForwardingLogs.NothingLost` | channeldb/forwarding_log.go:98-128 | with room nearby every event gets an entry of its own and no entry is touched |
| `ForwardingLogs.StoredAsIs` | channeldb/forwarding_log.go:98-128 | a batch with unique free times is stored under exactly those, beside what was there |
| `ForwardingLogs.ForwardingLog.StoreEvent` | channeldb/forwarding_log.go:134-177 | the loop of at most a hundred tries finds the specified time |
| `ForwardingLogs.ForwardingLog.AddForwardingEvents` | channeldb/forwarding_log.go:98-128 | unique times first, then all events or none |
| `Paginators.Paginator.CursorStart` | channeldb/paginate.go:65-107 | the position that the cases of the source come to |
| `Paginators.StartIsBeyond` | channeldb/paginate.go:65-107 | that position is the first key beyond the offset if and only if the offset is one that is handled |
| `Paginators.Paginator.Query` | channeldb/paginate.go:116-140 | the first matching keys beyond the offset, up to the limit, unless a fetch fails |
| `Paginators.PagesVisitAll` | channeldb/paginate.go:116-140 | pages chained by last index visit each matching key once and no other, in order, in either direction, over any gaps |
| `Sequencers.IDsIncrease` | htlcswitch/sequencer.go:63-123 | over every run of calls, failed writes and restarts short of a wrap the IDs strictly increase, are never zero and stay below the stored sequence |
| `Sequencers.WrapBreaksOrder` | htlcswitch/sequencer.go:86-100 | of two calls from an exhausted batch the second ID is larger if and only if the addition of the first did not wrap |
| `Sequencers.SequenceGrows` | htlcswitch/sequencer.go:86-100 | n calls move the sequence by at most 1000 n, so that no wrap happens before |
| `Sequencers.BatchIsContiguous` | htlcswitch/sequencer.go:63-123 | one write reserves a thousand IDs: the next 999 calls give the following ones without another |
| `Sequencers.CallFailsIff` | htlcswitch/sequencer.go:63-123 | a call gives no ID exactly when the batch is used up and the next cannot be reserved |
| `Sequencers.RestartSkips` | htlcswitch/sequencer.go:63-123 | a restart gives up the rest of the batch |
| `Sequencers.PersistentSequencer.NextID` | htlcswitch/sequencer.go:63-123 | short of a wrap, an ID larger than every one given out before, through failed writes and restarts |

## Left out

- Interleavings of concurrent calls: each operation is one step, although the circuit map releases its lock between changing memory and writing to disk.
- Transaction retries, and errors of the database other than a failed commit.
- Codecs of circuits, commitments, diffs and log updates (htlcswitch/circuit.go, channeldb/codec.go): values are stored as they are. The filter codec and the script encoding are modelled.
- Real cryptography: hashes, signatures, key derivation, shachain and onion encryption.
- Limits and policy rules of the script engine other than element and script size: opcode counts, stack depth, minimal encodings, clean stack.
- Opcodes that none of the channel's scripts use, and segregated witness outputs, which the source has replaced by pay-to-script-hash.
- LockTimeToSequence for locks in seconds, CommitSpendNoDelay and IsHtlcSpendRevoke: easy members.
- PkgFilter.Equal.
- The store of packages that all channels share, in CrashRuns: there each channel has its own, which decides only whether its acknowledgements fail.
- Several in-memory objects for one channel: the model has one, so status and commitments in memory can differ from disk only through the operations modelled.
- The rest of OpenChannel: opening, closing, data loss, funding and the channel's information other than its status.
- Timestamps outside the range of nanoseconds since 1970, and ForwardingLog.Query.
- The event loop of the switch, its goroutines, channels and tickers, and closeCircuit and teardownCircuit.
- The MPP and AMP records beyond the fields the tracker fills in.
