# The host half of the medius control link

The host drives a remote box over a serial link on which nothing but queries is answered. It keeps the
box's tables in step all the same: every lock, rewrite rule, transform and subscription is recorded in a
desired-state ledger before its frame goes out, taken back if the frame never left, and sent again when
the box boots or lets its session go. This project models that half of the link, states what it promises
as properties over all inputs, all runs and all interleavings, and proves them.

The box is modelled as its own small state (lock cells, keyed lists, a subscription table, a session
counter, a firmware slot), taken from the repository's reference box in `src/mock/mod.rs`. Its
subscription table is the exception: there the reference box replies from a script, so the table's
ceiling, its one entry an address and its whole-table clear follow the comments at
`src/link/catch.rs:23-24`, `:62-65`, `:188-196` and `:255-258`.

| file | what it models |
|---|---|
| `CatchTable.dfy` | many subscriptions collapsed into one bounded table with widened captures |
| `CatchSync.dfy` | moving the box's table by a diff, and taking a half-sent diff back |
| `CatchLink.dfy` | the subscription registry: subscribe, refuse, roll back, unsubscribe |
| `LockLedger.dfy` | the lock ledger with its lazy button blanket and its exact undo |
| `LockBox.dfy` | the box's lock cells, and exactly when the ledger agrees with them |
| `LockReplay.dfy` | the commands that rebuild the held locks |
| `KeyedList.dfy` | ordered keyed tables: two kinds of set, their undo, their replay |
| `RewriteTable.dfy`, `TransformTable.dfy` | rewrite rules and field transforms, at both ends |
| `RestartWatch.dfy`, `RestartSystem.dfy` | restart recovery as a system of two machines and two queues |
| `ChunkPlan.dfy` | the firmware window protocol and its receiver |
| `ClipCodec.dfy`, `ClipPacker.dfy` | clip entries, their parser, and packing them into commands |
| `PacketTrigger.dfy` | which packet triggers are refused, can fire, and can fire again |
| `Correlation.dfy` | replies matched to queries by a wrapping number |
| `InputPump.dfy` | snapshots turned into press and release edges |
| `Crc.dfy` | CRC16-CCITT-FALSE and the errors it cannot miss |
| `Finite.dfy`, `Wrappers.dfy` | shared facts about finite collections, and the optional and fallible values |

Where the source changes state in place, a class with the same fields does, and each of its methods is
proved equal to a function on values; the lemmas are about those functions.

## What the proofs found

Each of these is a property that one would expect of the code and that fails for some inputs. The
condition under which it does hold is proved in both directions, and inputs on which it fails are given.

- A button blanket in one direction, issued while single buttons are held, wipes the single rows from the
  ledger; the box keeps what they hold in the other direction. A key id past the box's 256 lands on the
  key it aliases. A ninth media lock is dropped by the box. With a clone up, and read on the axes, the
  declared buttons, the keys from 4 to 255 and the media usages other than 0, ledger and box agree after
  a command exactly when it is none of these (`LockBox.CommandAgrees`); two commands from empty that part them, every
  aliasing key, and a full media list are `LockBox.OneWayBlanketDiverges`, `LockBox.AliasDiverges` and
  `LockBox.NinthIsDropped`.
- Replaying the held locks onto an empty box restores it exactly when no held key blocks, on the cell of
  another, an edge the other lets pass (`LockReplay.ReplayRestoresTheBox`); locking any key past 256 and
  then unlocking the one it aliases is a case (`LockReplay.AliasBreaksTheReplay`).
- Removing the rewrite rule at the any-class, any-id address is byte for byte the clear of the whole
  table. The ledger drops one rule, the box all of them; they agree exactly when the ledger holds no
  other rule (`RewriteTable.CallAgrees`, `RewriteTable.ClearAddressDiverges`).
- A transform on a field the clone lacks is recorded and dropped by the box
  (`TransformTable.CallAgrees`, `TransformTable.UndeclaredIsDropped`).
- The check for the reserved id of a subscription looks at the first exact filter only. Behind an
  ordinary one the reserved id gets through (`CatchLink.RefusesIff`), goes out as its whole class, and
  registry and box are out of step (`CatchLink.SentinelLeavesStep`).
- Unsubscribing can need more entries than the box has: two opposite signs that merged into one entry
  part again. Three subscriptions of 17 addresses each fit as 17 entries and need 34 once the negative
  signs are gone (`CatchLink.UnsubscribeCanOverflow`).
- An unsubscribe, a disconnect or a way back that the link cuts short goes unreported, and the box may
  not be where the registry is. A cut diff never leaves the box at its goal (`CatchSync.CutNeverReaches`); a cut
  way back leaves it right exactly when the frames that arrived put right whatever the forward frames had
  disturbed (`CatchSync.TakenBackIff`, `CatchSync.DisturbedIs`). `CatchLink.CallInStep` gathers these
  conditions, call by call, in both directions. The keepalive's re-assert heals entries the box has
  lost; an entry left behind it never removes (`CatchLink.ReAssertHeals`).
- Even a way back that arrives whole can fail: the diff had cleared the wildcard, the way back does not,
  and an entry common to both tables was still to be sent again (`CatchSync.RollbackAfterPrefix`;
  `CatchSync.RollbackSafeIsExact` says from the two tables alone when no failure can do this). Three live
  filters and a fourth that merges with one of them are a case (`CatchLink.RollbackCanLose`).
- An event with no sign of its own can be resolved to a narrower entry than one of its subscribers asked
  for. It is kept as wide as a filter asks exactly when the two do not have opposite signs or some filter
  that covers the entry asks for as much (`CatchTable.TopEntryReaches`); `CatchTable.OppositeSignsStarve`
  is a family of cases. For every event with a sign the promise holds.
- Outside a recovery, with nothing on its way and nothing ever to show it, the box can be without an
  entry of the ledger. Short of a full turn of the 16-bit session counter between two readings there are
  two ways. What a release took can be lost so exactly when the handshake's session reading went
  unanswered: the first poll then takes for its baseline what the release has already changed
  (`RestartSystem.LateBaselineLosesARelease`), and with an answer no run does this
  (`RestartSystem.BaselineIsExact`). What met a box without a clone is lost so either way: a lock sent
  while the clone was away (`RestartSystem.LockWithoutACloneIsLost`), or a whole re-send, by a recovery
  whose clone goes after the first probe, with nothing left for the counter to count, and is back before
  the second (`RestartSystem.BouncedCloneLosesTheReplay`). All three are runs from a handshake. There is
  no other way: an entry is in place exactly when its last command found what it needed and the box has
  not let it go since (`RestartSystem.KeyInPlaceIff`), and `RestartSystem.NoSilentLoss` and
  `RestartSystem.DoneIffNoneMissed` say when nothing has been let go.
- A replay onto a box that holds part of the table restores the table exactly when that part is a prefix
  of it (rewrite rules), or its keys are (transforms). A box that kept only the second of any two entries
  ends with the two swapped (`RewriteTable.SecondComesFirst`, `TransformTable.SecondComesFirst`). An entry
  set between a release and the re-send comes in front: the order is the ledger's exactly when it is the
  ledger's first too (`RewriteTable.SetBeforeReplay`, `TransformTable.SetBeforeReplay`), which a new or
  changed rule is only where no other is held (`RewriteTable.NewRuleBeforeReplay`).

## Model

| member | source | states |
|---|---|---|
| CatchTable.EffectiveMatchesWhatWasAsked | src/link/catch.rs:108-128 | an event matches an entry of the effective table exactly when it matches some subscriber's filter |
| CatchTable.NoTwoEntriesTie | src/link/catch.rs:62-94 | two entries that match one event never rank alike, so the box has no tie to break |
| CatchTable.TopEntryReaches | src/link/catch.rs:38-60 | the entry the box picks keeps at least what a matching filter asked for exactly when the two do not have opposite signs or some filter covering the entry asked for as much |
| CatchTable.NamedEventsKeepEnough | src/link/catch.rs:108-128 | for every event with a named direction, the top-ranked entry's capture is at least that of every matching filter |
| CatchTable.OppositeSignsStarve | src/link/catch.rs:38-66 | for every pair of opposite-signed filters at any captures, one covering the other's address, an event without a sign resolves to the covered entry, and the covering subscriber is served exactly when it asked for no more |
| CatchTable.WidestIsAttainedBound | src/link/catch.rs:118-124 | the widened capture is an upper bound of every covering filter's capture and is the capture of one of them |
| CatchTable.EffectiveIsExact | src/link/catch.rs:66-128 | every entry of the union is exactly as wide as the widest capture asked by a filter it answers to (where opposite signs merged, every filter whose address covers the entry's): never narrower, and never wider than somebody asked |
| CatchTable.FeedsIff | src/link/catch.rs:38-60 | a filter widens an entry exactly when some signed event is for both and the filter's own key does not outrank the entry |
| CatchTable.Collapse | src/link/catch.rs:28-36 | the loop leaves one entry per address at the widest capture asked of it |
| CatchTable.CollapseOppositeSiblings | src/link/catch.rs:66-94 | the loop turns each opposite pair, and a both-signs entry beside it, into one both-signs entry at the widest of their captures, and touches no other |
| CatchTable.WidenAll | src/link/catch.rs:118-124 | every entry ends at the widest capture of every filter that covers it |
| CatchTable.EffectiveTable | src/link/catch.rs:111-128 | the registry's computation is the effective table the lemmas are about |
| CatchSync.Sync | src/link/catch.rs:187-231 | the frames are a diff (the removed entries, the whole-table clear if the wildcard went, then the new and changed entries, each named once) and take a box holding the old table to the new one exactly when that names no reserved id |
| CatchSync.DiffReaches | src/link/catch.rs:187-231 | the whole diff takes a box holding one table to exactly the next, if and only if the next names no reserved id |
| CatchSync.CutNeverReaches | src/link/catch.rs:187-231 | a diff cut short anywhere leaves the box off the table it was moving to |
| CatchSync.PrefixNeverOverflows | src/link/catch.rs:187-231 | every intermediate table names only addresses of one of the two ends and is no larger, so the ceiling never drops an entry on the way |
| CatchSync.BoxStaysBounded | src/link/catch.rs:255-266 | the box holds at most 32 entries, none at the reserved id, whatever it is sent |
| CatchSync.RollbackAfterPrefix | src/link/catch.rs:266-275 | after a failure at any frame, the completed way back restores the old table exactly when it clears too, or no kept entry was lost to a wildcard clear or shadowed by a reserved id |
| CatchSync.TakenBackIff | src/link/catch.rs:268-274 | a way back that itself fails at any frame, from any box between the two tables, restores the old table exactly when what arrived puts right all that was disturbed, or, once it clears, when all of it arrived |
| CatchSync.DisturbedIs | src/link/catch.rs:187-231 | which entries a diff that failed after so many frames has left wrong |
| CatchSync.ReAssertIff | src/link/keepalive.rs:96-112 | whatever the box holds, re-sent entries put it right exactly when it holds nothing outside the table and they name every entry it has wrong |
| CatchSync.RollbackSafeIsExact | src/link/catch.rs:266-275 | a condition on the two tables alone holds exactly when no failure point can break the rollback |
| CatchLink.CallInStep | src/link/catch.rs:234-313 | from registry, desired table and box in step, a subscribe, its way back, an unsubscribe, a disconnect or a re-assert, each cut by the link at any frame, ends in step exactly under its condition |
| CatchLink.RunStaysInStep | src/link/catch.rs:234-313 | over any run of calls that keep to their conditions, refusals and cut links among them, box table, union and desired table stay equal and within 32 |
| CatchLink.RefusalIsExact | src/link/catch.rs:255-266 | a subscribe is refused exactly when the box, sent the diff, would not hold the union |
| CatchLink.AcceptedIsServed | src/link/catch.rs:234-277 | a subscriber that was told its id is registered under it beside all the others, and the box serves every signed event it asked for |
| CatchLink.UnsubscribedIsGone | src/link/catch.rs:280-285 | after an unsubscribe exactly the other subscribers are left |
| CatchLink.NoIdTwice | src/link/catch.rs:244-244 | over any run of calls, whatever fails in it, no two subscribers are given one id |
| CatchLink.ReAssertHeals | src/link/keepalive.rs:96-112 | out of step, a whole re-assert restores step exactly when the box holds no entry the registry dropped |
| CatchLink.SubscriberIsServed | src/link/catch.rs:234-277 | in step, every signed event a live subscriber asked for has a top entry on the box that keeps enough of it |
| CatchLink.UnsubscribeCanOverflow | src/link/catch.rs:280-285 | from 17 addresses on, dropping the subscription that made opposite pairs leaves the box short of the registry, wherever the diff stops |
| CatchLink.RollbackCanLose | src/link/catch.rs:266-275 | a live registry and a fitting subscribe for which some failure point is not taken back though the way back arrives whole |
| CatchLink.PlainUnion | src/types/catch.rs:449-455 | the union names the reserved id exactly when a filter does |
| CatchLink.RefusesIff | src/device/catch.rs:210-221 | the check refuses a list exactly when it has a reserved id and no ordinary exact filter ahead of it |
| CatchLink.SentinelLeavesStep | src/device/catch.rs:210-221 | one exact id, the reserved one and the whole class pass the check, are accepted, and leave registry and box out of step |
| CatchLink.Link.CatchSync | src/link/catch.rs:187-231 | the box has taken exactly the frames the link carried, and success means all of them |
| CatchLink.Link.Subscribe | src/link/catch.rs:234-277 | the new registry, desired table and box are those of the state machine, with the link cut at any frame of the diff and of the way back; the answer names the refusal, the broken link or the new id |
| CatchLink.Link.DetachSub | src/link/catch.rs:304-312 | the subscription is gone and the desired table is the union of the rest |
| CatchLink.Link.Unsubscribe | src/link/catch.rs:280-285 | the new state is that of the state machine, with the link cut at any frame |
| CatchLink.Link.ReAssert | src/link/keepalive.rs:96-112 | whichever frames are lost, the box has taken the desired table's others |
| CatchLink.Link.Clear | src/link/catch.rs:289-302 | no subscription, no desired entry, and an empty box if the frame arrives |
| LockLedger.AppliedKeepsInv | src/link/reconcile.rs:382-424 | every command the lock call lets through keeps rows non-empty and one-bit where they must be, the media list equal to the media rows, and a blanket alone in its class |
| LockLedger.CheckedIsOnTheWire | src/device/lock.rs:14-25 | what passes the range, sign and direction checks is what the ledger and the box are prepared for |
| LockLedger.CheckedIff | src/device/lock.rs:14-25 | which calls go through, under which error each other is refused, and that what goes on the wire is the key, the scale and the direction the caller named (a media usage is locked whole) |
| LockLedger.LockReads | src/device/lock.rs:13-42 | after a call that goes through, the target it named reads the scale in the direction named and nothing else changed of it, and every other target reads as before |
| LockLedger.DesiredLocks.WriteLockRow | src/link/reconcile.rs:411-424 | one row is set or dropped and the media list follows; rewinding the extended undo leads where the shorter one led |
| LockLedger.DesiredLocks.ClearButtonRows | src/link/reconcile.rs:428-440 | every single button row goes and nothing else, with its undo |
| LockLedger.DesiredLocks.BurstButtonBlanket | src/link/reconcile.rs:444-458 | a held blanket becomes one row for each declared button that had none, with its undo |
| LockLedger.DesiredLocks.ApplyLock | src/link/reconcile.rs:382-407 | the new ledger is the specified one, and rewinding the returned undo gives back exactly the old rows and media order |
| LockLedger.DesiredLocks.RestoreLock | src/link/reconcile.rs:475-483 | undoes newest first |
| LockLedger.DesiredLocks.SendLock | src/device/lock.rs:13-42 | any outcome but success leaves the ledger as it was, order included; success applies the checked command |
| LockLedger.DesiredLocks.NoteDeclaredButtons | src/link/reconcile.rs:463-470 | the count is capped at sixteen and changes nothing else |
| LockBox.CommandAgrees | src/link/reconcile.rs:382-407 | from agreement on every axis, declared button, key and media usage, a command keeps it exactly when it is faithful |
| LockBox.RunAgrees | src/link/reconcile.rs:377-458 | over any run of faithful commands ledger and box agree, whatever mix of blankets, bursts and single writes |
| LockBox.ButtonBothSides | src/link/reconcile.rs:396-405 | what one button reads on either side after any command |
| LockBox.KeyBothSides | src/mock/mod.rs:576-601 | what one key reads on either side, with the box filing it under its low byte |
| LockBox.FirstFreeCount | src/mock/mod.rs:602-619 | the box has a free media slot exactly when fewer than eight usages are held |
| LockBox.OneWayBlanketDiverges | src/link/reconcile.rs:396-401 | after a lock of any one button's release and a blanket on every press, from an agreeing box, the box blocks that release and the ledger does not |
| LockBox.AliasDiverges | src/mock/mod.rs:576-601 | every key past 256, locked from empty, sets the bits of the key it aliases, of which the ledger holds nothing |
| LockBox.NinthIsDropped | src/mock/mod.rs:602-619 | with eight media locks the two sides agree on, the ledger takes a ninth and the box does not |
| LockBox.SendAll | src/device/lock.rs:26-41 | after any run of calls with arbitrary refusals and send failures the ledger is the one the sent commands alone build |
| LockReplay.CommandsRebuild | src/link/reconcile.rs:72-86 | the commands of a row, applied where there was none, rebuild exactly that row and append its media slot |
| LockReplay.ArrangedUniquely | src/link/reconcile.rs:671-671 | class, media rank and id order the rows in one way only |
| LockReplay.ArrangedOrder | src/link/reconcile.rs:668-700 | buttons, keys, media, axes; by id within a class, media by slot |
| LockReplay.MediaOrderKept | src/link/reconcile.rs:690-700 | the sorted media rows come in slot order |
| LockReplay.ReplayRebuilds | src/link/reconcile.rs:667-688 | replaying the held locks on a fresh ledger gives the held rows, the blanket spread over the declared buttons, and the same media order |
| LockReplay.ReplayIsFixpoint | src/link/reconcile.rs:667-688 | the rebuilt ledger replays the very same commands |
| LockReplay.ReplayRestoresTheBox | src/link/reconnect.rs:293-302 | a box that restarted empty, and agreed before, agrees with the ledger again after the replay exactly when no held key past 256 blocks, on the cell it aliases, an edge that cell's own row lets pass |
| LockReplay.AliasBreaksTheReplay | src/link/reconnect.rs:293-302 | a key past 256 locked and the one it aliases unlocked leave ledger and box in agreement, and the replay breaks it |
| LockReplay.HeldLocks | src/link/reconcile.rs:668-688 | the computed commands are the replay of the rows in their one order, and rebuild a well-formed ledger |
| KeyedList.UndoLast | src/link/reconcile.rs:488-522 | restoring after a move-to-end set, or after a removal, gives back the table, order included |
| KeyedList.UndoInPlace | src/link/reconcile.rs:557-599 | restoring after an in-place set, or after a removal, gives back the table, order included |
| KeyedList.RetainedIsWithout | src/link/reconcile.rs:517-517 | dropping every entry under a key drops the one entry there is |
| KeyedList.ReplayLastShape | src/link/reconnect.rs:310-328 | what replaying one rule table onto any other leaves: the entries it changes nothing in, then the missing ones in order |
| KeyedList.ReplayLastReaches | src/link/reconnect.rs:310-328 | the replay leaves exactly the replayed table when, and only when, the entries left standing are a prefix of it |
| KeyedList.ReplayLastOntoPart | src/link/keepalive.rs:113-133 | a box left holding part of the rules holds them all, in order, after the replay exactly when that part is a prefix |
| KeyedList.ReplayInPlaceShape | src/link/reconnect.rs:326-334 | what replaying one transform table onto any other leaves |
| KeyedList.ReplayInPlaceReaches | src/link/reconnect.rs:326-334 | the replay leaves exactly the replayed table when, and only when, the keys it starts from are a prefix of its keys |
| RewriteTable.AcceptedIffAdmitted | src/device/rewrite.rs:197-255 | the host accepts exactly the rules the box would store |
| RewriteTable.SetKeepsInv | src/device/rewrite.rs:45-67 | a rule that passes the capacity checks is taken by the box, and the table stays within 32 rules and 2048 payload bytes |
| RewriteTable.CapacityIff | src/device/rewrite.rs:50-67 | the capacity check is the box's own, the overwritten rule left out of the count; a refusal names the room there is, and a payload that filled it would be taken |
| RewriteTable.RefusedIffDropped | src/device/rewrite.rs:45-67 | the host refuses exactly the rules the box would drop |
| RewriteTable.RefusalIsTrue | src/device/rewrite.rs:45-95 | a refusal names a limit the rule breaks, and a dead link is blamed for nothing else |
| RewriteTable.RemovalWorks | src/device/rewrite.rs:97-126 | no held rule's removal is refused, and it takes out that rule alone |
| RewriteTable.CallAgrees | src/device/rewrite.rs:45-162 | a call leaves box list and ledger list equal, order included, exactly when it is not a removal at the clear-all address with other rules held |
| RewriteTable.RunAgrees | src/device/rewrite.rs:45-162 | over any run, refused and failed calls included, keys stay unique, the bounds hold and the two lists are equal |
| RewriteTable.ClearAddressDiverges | src/device/rewrite.rs:97-126 | a two-rule table on which the removal empties the box and leaves the ledger one rule |
| RewriteTable.ReplayOntoPart | src/link/keepalive.rs:113-133 | re-sending the rules to a box that holds some of them gives them all, in order, exactly when those were the first ones; none is refused for room on the way |
| RewriteTable.SecondComesFirst | src/link/keepalive.rs:113-133 | of any two rules, a box that kept only the second ends with the two swapped |
| RewriteTable.SetBeforeReplay | src/link/restart.rs:276-286 | a rule set on an emptied box ahead of the re-send leaves the box in the ledger's order exactly when the rule is the ledger's first |
| RewriteTable.NewRuleBeforeReplay | src/link/restart.rs:276-286 | for a rule that is new or changes the one under its key, exactly when the ledger holds no other |
| RewriteTable.DesiredRewrites.ApplyRewrite | src/link/reconcile.rs:488-502 | a changed rule moves to the end, the very same rule keeps its place |
| RewriteTable.DesiredRewrites.ForgetRewrite | src/link/reconcile.rs:505-512 | the one rule under the key is gone, with its undo |
| RewriteTable.DesiredRewrites.RestoreRewrite | src/link/reconcile.rs:516-522 | the rule returns to its place or leaves |
| RewriteTable.DesiredRewrites.SetRewrite | src/device/rewrite.rs:45-95 | the answer and the new table for every refusal, a dead link and success |
| RewriteTable.DesiredRewrites.RemoveRewrite | src/device/rewrite.rs:97-126 | a removal whose frame never left, for its length or a dead link, changes nothing |
| RewriteTable.DesiredRewrites.ClearRewrite | src/device/rewrite.rs:131-162 | a clear whose frame never left puts every rule back in order |
| TransformTable.AdmittedIffPairOk | src/device/transform.rs:155-166 | the host's check of an op and its fields is the box's |
| TransformTable.CallAgrees | src/device/transform.rs:42-115 | a call leaves both lists equal, order included, exactly when it does not set an entry on a field the clone lacks |
| TransformTable.RefusedIffDropped | src/device/transform.rs:42-84 | with the fields declared, the host refuses exactly the entries the box would drop |
| TransformTable.UndeclaredIsDropped | src/mock/mod.rs:1086-1093 | a swap of two axes on a clone that declares none is recorded and dropped by the box |
| TransformTable.RunAgrees | src/device/transform.rs:42-115 | over any run keys stay unique, the table within 32 entries and both lists equal |
| TransformTable.ReplayOntoPart | src/link/keepalive.rs:134-143 | re-sending the transforms to a box that holds some, at whatever ops, gives all those the clone has the fields for, in order, exactly when their keys were the first ones |
| TransformTable.ReplayOntoEmpty | src/link/reconnect.rs:324-334 | an emptied box, in front of whatever device, ends with exactly the entries the clone has the fields for, in the ledger's order |
| TransformTable.SecondComesFirst | src/link/keepalive.rs:134-143 | of any two transforms, a box that kept only the second ends with the two swapped |
| TransformTable.SetBeforeReplay | src/link/restart.rs:276-286 | a transform set on an emptied box ahead of the re-send leaves the box in the ledger's order exactly when the ledger has it in front |
| TransformTable.DesiredTransforms.ApplyTransform | src/link/reconcile.rs:557-572 | an overwrite keeps its place, a new entry goes last |
| TransformTable.DesiredTransforms.RestoreTransform | src/link/reconcile.rs:587-599 | the entry returns to its place or leaves |
| TransformTable.DesiredTransforms.SetTransform | src/device/transform.rs:42-84 | the answer and the new table for every refusal, a dead link and success |
| TransformTable.DesiredTransforms.ForgetTransform | src/link/reconcile.rs:575-583 | the one entry under the key is gone, with its undo |
| TransformTable.DesiredTransforms.RemoveTransform | src/device/transform.rs:60-90 | a removal whose frame never left changes nothing |
| TransformTable.DesiredTransforms.ClearTransforms | src/device/transform.rs:94-115 | a clear whose frame never left puts every entry back in order |
| RestartWatch.SharedWatch.NoteHello | src/link/restart.rs:103-141 | which hello is counted, which begins a recovery, which is ignored; a box on another protocol is refused, and its first hello back is a boot |
| RestartWatch.OneRecoveryPerBoot | src/link/restart.rs:85-88 | until a recovery ends, the hellos owe or hand over one recovery between them, a reconnect to a fresh chip adds at most one each, and if any of these came at least one is owed or was handed over |
| RestartWatch.HellosAreCounted | src/link/restart.rs:103-149 | every hello and reconnect is counted, and a second hello leaves a boot to count when the recovery ends |
| RestartWatch.ArmedByAReply | src/link/restart.rs:97-141 | the hello that begins a recovery disarms the watch until the chip replies |
| RestartWatch.SharedWatch.NoteReply | src/link/restart.rs:97-99 | any reply arms the watch and changes nothing else |
| RestartWatch.SharedWatch.TakeOwed | src/link/restart.rs:151-157 | an owed recovery is handed over once |
| RestartWatch.SharedWatch.Finish | src/link/restart.rs:164-171 | a recovery ends unless a hello came since it read the count |
| RestartSystem.InvKept | src/link/restart.rs:96-315 | every event of host, reader, application, link and box keeps the invariant |
| RestartSystem.ReachableKeepsInv | src/link/keepalive.rs:44-95 | every state reachable from a handshake, its session reading answered or not and the box empty or not, in any interleaving, satisfies it |
| RestartSystem.KeyInPlaceIff | src/link/keepalive.rs:44-95 | in every reachable state, an entry with no command on its way is in place exactly when its last command did not meet a box without a clone and the box has not let it go since |
| RestartSystem.NoSilentLoss | src/link/keepalive.rs:49-92 | outside a recovery, with no hello on its way and the session as read, short of a full turn: when the reading is of the epoch of the handshake or of the last recovery, the box has let nothing go that has no command on its way; with none on its way at all, box and ledger are equal exactly when no entry met a box without a clone and nothing is left from before the handshake |
| RestartSystem.BaselineKept | src/link/restart.rs:173-185 | a session reading of that epoch stays one under every event, and the end of a recovery makes one |
| RestartSystem.BaselineIsExact | src/device/connect.rs:82-87 | from a handshake, no run loses silently what a boot or a release took, short of a full turn of the counter, exactly when the handshake's session reading was answered |
| RestartSystem.LateBaselineLosesARelease | src/link/restart.rs:181-185 | from any handshake without that answer, one lock, one release and one poll end quiet, the clone up, the lock gone |
| RestartSystem.LockWithoutACloneIsLost | src/mock/mod.rs:960-972 | a run from a handshake with no recovery in it that ends quiet, the clone up, the lock in the ledger and not on the box |
| RestartSystem.NothingStale | src/link/reconnect.rs:259-339 | what the box holds, with no command on its way for it, is what the ledger holds exactly when it is not left from before the handshake |
| RestartSystem.FinishesIff | src/link/restart.rs:306-314 | a recovery ends exactly when no hello was heard since the count was read after the first probe |
| RestartSystem.NoEndWithoutAClone | src/link/restart.rs:292-302 | over every run on which the clone is away from the re-send on, no recovery reaches its end or passes another probe, and it stays pending |
| RestartSystem.RecoveryRestores | src/link/restart.rs:266-315 | from any reachable state with a recovery pending, the link idle and the clone up, undisturbed turns of the keepalive end it with every entry of the ledger in place |
| RestartSystem.PollNotices | src/link/restart.rs:206-224 | a poll over an idle link begins a recovery exactly when the box's counter differs from the reading the watch had |
| RestartSystem.DoneMeansNothingLost | src/link/restart.rs:266-315 | an ended recovery read the session twice in one boot, and no release short of a full turn of the counter fell between |
| RestartSystem.DoneIffNoneMissed | src/link/restart.rs:266-315 | at the end of a recovery, with nothing lost since the second reading and every command taken, an entry is in place exactly when its last command did not meet a box without a clone, and box and ledger are equal exactly when none did and nothing is left from before the handshake |
| RestartSystem.DoneMeansReplayed | src/link/restart.rs:266-315 | in particular with the clone standing since the first probe every entry is in place |
| RestartSystem.BouncedCloneLosesTheReplay | src/link/restart.rs:295-303 | a run from a handshake on which the recovery ends, no hello is on its way, the session is equal and the lock is gone |
| RestartSystem.GuardedKept | src/link/restart.rs:276-303 | once the re-send is on its way, each entry stays accounted for until something empties the table |
| RestartSystem.KeyStaysFaithful | src/device/lock.rs:26-41 | the last command on its way for an entry, or the box's own value, agrees with the ledger after every event |
| ChunkPlan.Plan.NextFrame | src/device/update.rs:58-72 | a frame goes out exactly when the window and the image allow, and it is the image's next chunk under its wrapped number |
| ChunkPlan.Plan.OnAck | src/device/update.rs:79-101 | only a success naming the next chunk is accepted, and it clears the window |
| ChunkPlan.Plan.FillWindow | src/device/update.rs:186-188 | the inner loop stops exactly with the window full or the image out, and has sent the next chunks in order |
| ChunkPlan.Plan.Transfer | src/device/update.rs:184-194 | the loop ends, sends the chunks in order, and finishes exactly when the replies carry it through: one success a window, each naming the next chunk; the frame bodies are then the image |
| ChunkPlan.BodiesAreTheImage | src/device/update.rs:58-72 | the bodies of the first frames are the image's first bytes in order |
| ChunkPlan.FrameReadsBack | src/device/update.rs:58-72 | a receiver reads back off a frame the op, the target, the number (low byte first) and the chunk |
| ChunkPlan.ReceivesTheNextChunk | src/mock/mod.rs:1808-1845 | inside a window the receiver takes the very next chunk or closes; it mistakes none for another |
| ChunkPlan.RunKeepsInv | src/device/update.rs:184-194 | the invariant of sender, lossy link and receiver holds over every run |
| ChunkPlan.DoneMeansStaged | src/device/update.rs:184-194 | whatever chunks are lost, a transfer whose every acknowledgement was accepted has put exactly the image in the slot, for any window shorter than 65536 chunks or image no longer than that |
| ChunkPlan.AcceptedImageIsStaged | src/mock/mod.rs:1791-1794 | the same for every image the box agrees to take and every credit it grants |
| ChunkPlan.WholeWindowIsAcknowledged | src/device/update.rs:74-77 | a window that arrives whole is answered by exactly the one acknowledgement the sender accepts |
| ChunkPlan.LosslessTransferEnds | src/device/update.rs:184-194 | every image gets there: with the default credit and a link that loses nothing there is a run to the end with the image in the slot |
| ClipCodec.EncodeFrame | src/device/clip.rs:31-127 | the refusals in their order, or the entry's bytes, of the length the builder counted and at most 512 |
| ClipCodec.RefusedIff | src/device/clip.rs:31-68 | exactly the frames within every limit are let through: eight edges, eight raw reports each towards one side, every transfer with the data its setup packet calls for, 512 encoded bytes |
| ClipCodec.RefusalIsTrue | src/device/clip.rs:31-68 | a refusal names a limit the frame breaks |
| ClipCodec.AcceptedFits | src/device/clip.rs:118-120 | an accepted frame holds at most 56 transfers, and every count and length fits its field |
| ClipCodec.GapOnTheWire | src/device/clip.rs:137-143 | a gap run is a zero tag and its length, low byte first, and no frame starts with a zero |
| ClipCodec.EncodedLength | src/types/clip.rs:639-653 | a frame encodes to exactly the length counted beforehand |
| ClipCodec.EntryParsed | src/device/clip.rs:30-127 | a parser recovers every accepted entry, up to the endpoint nibble, and consumes exactly its bytes, whatever follows |
| ClipCodec.TransferParsed | src/device/clip.rs:50-63 | a transfer whose data matches its setup packet needs no length field |
| ClipCodec.UniquelyDecodable | src/device/clip.rs:30-127 | two rings that read the same byte for byte hold the same entries |
| ClipPacker.GroupsHold | src/device/clip.rs:129-153 | the commands hold the entries in order, cut between entries only, none empty and none over the limit but a lone entry that is |
| ClipPacker.GreedyIsMinimal | src/device/clip.rs:129-153 | no way to cut the entries into commands within the limit needs fewer |
| ClipPacker.AppendReadsBack | src/device/clip.rs:303-311 | the appended commands read back end to end as the builder's entries, each of 1 to 512 bytes |
| ClipPacker.EncodeChunks | src/device/clip.rs:131-153 | the first refusal among the entries, or the greedy packing of them all |
| PacketTrigger.RefusedIffNotAdmitted | src/device/clip.rs:183-251 | the host refuses exactly the triggers the box would, the opt-in apart |
| PacketTrigger.FirableIffNoStray | src/device/clip.rs:208-213 | some packet head meets the match exactly when no match bit lies outside its mask |
| PacketTrigger.EndableIffMasked | src/device/clip.rs:240-249 | a packet long enough and on the stream can break the condition exactly when a bit past the selector is masked |
| PacketTrigger.AcceptedIsLive | src/device/clip.rs:217-251 | every accepted trigger can fire, and one that runs once a run can end its run |
| PacketTrigger.OncePerRun | src/mock/mod.rs:303-333 | between two firings of a once-per-run trigger the stream left the condition |
| PacketTrigger.ScoreOrder | src/mock/mod.rs:174-190 | of two triggers within the match limit the id ranks first, then the masked bits, then the direction |
| PacketTrigger.CandidateIff | src/mock/mod.rs:174-190 | which packets a trigger is a candidate for, on its address and its bytes |
| PacketTrigger.WiderIsCandidate | src/mock/mod.rs:174-190 | a trigger opened to any id or both directions takes every packet it took before, and ranks no higher there |
| PacketTrigger.MaskedBitRanks | src/mock/mod.rs:188-189 | a trigger that masks one more bit, wherever it lies, ranks above |
| PacketTrigger.TopIff | src/mock/mod.rs:303-313 | a packet drives a candidate exactly when no other is more specific, or as specific and set earlier |
| PacketTrigger.SkippedOnlyMidRun | src/mock/mod.rs:303-333 | a packet that matches a once-per-run trigger does not fire it exactly when another outranks it or the packet follows, on its stream, directly on one that matched |
| Correlation.Table.Register | src/link/correlation.rs:28-59 | the bounded search gives the specified number, and the waiter is stored under it with a new generation |
| Correlation.Table.Cancel | src/link/correlation.rs:61-66 | only the waiter of that generation is taken out |
| Correlation.Table.Deliver | src/link/correlation.rs:68-81 | only a reply of the waiter's type and selector is handed over, and the waiter is gone |
| Correlation.FreshIff | src/link/correlation.rs:38-48 | a query never waits on the hello's number, and its number is fresh exactly when fewer than 255 replies are awaited |
| Correlation.SearchIsFirst | src/link/correlation.rs:36-45 | the search takes the first free number from the counter on, going round |
| Correlation.ArrivalIsHandedOver | src/link/correlation.rs:68-81 | a payload of the awaited type and selector on an awaited number is handed to its waiter, which is then done; any other changes nothing |
| Correlation.ReplyReachesItsQuery | src/link/correlation.rs:24-81 | over any run, a query whose reply arrives before it gives up and before its number is given again is answered |
| Correlation.OneReplyEach | src/link/correlation.rs:24-81 | over any run of queries, other sends, time-outs and replies a waiter is handed at most one payload, of its own type, number and selector |
| Correlation.LateCancelSparesOthers | src/link/correlation.rs:61-66 | over any run, of two queries given one number, the earlier one's cancel leaves the later one awaited and the later one's own takes it out |
| InputPump.Stream.Pump | src/device/input.rs:57-101 | the queue and the held lists after a report are the specified ones |
| InputPump.EdgesFold | src/device/input.rs:88-98 | the edges of one report, releases first, alternate and take what was held to what is held |
| InputPump.ReportAdds | src/device/input.rs:57-101 | what a report adds carries its time, every release before any press |
| InputPump.MotionsAreTheMoves | src/device/input.rs:59-71 | over every run the motions queued are exactly the reports that moved anything, in order, with their times and every axis as reported |
| InputPump.RunIsFaithful | src/device/input.rs:57-101 | over every run, presses and releases alternate for each usage and all edges fold to what is held, which lists nothing twice |
| InputPump.KeptIs | src/device/input.rs:75-83 | the kept usages are those of the class that a filter names or whose whole class one names, each once |
| InputPump.HeldIsTheLastSnapshot | src/device/input.rs:73-100 | what is held of a class depends only on the last snapshot of it that arrived |
| InputPump.DropsDoNotShow | src/device/input.rs:73-100 | two deliveries that lost different reports agree on everything held if each class's last snapshot reached both |
| Crc.Crc16Ccitt | src/protocol/crc.rs:4-17 | the nested loops compute the register the lemmas are about |
| Crc.RunFeeds | src/protocol/crc.rs:6-15 | taking bytes is taking their bits, highest first |
| Crc.CheckValue | src/protocol/crc.rs:1-17 | the CRC of the digits 1 to 9 is 0x29B1, the check value of CRC16-CCITT-FALSE |
| Crc.LeadingZeroIsNoticed | src/protocol/crc.rs:4-6 | a zero byte put in front of any message changes its CRC |
| Crc.SameCrcIff | src/protocol/crc.rs:4-17 | two messages of one length share a CRC exactly when their errors alone feed a zero register to zero |
| Crc.BurstIsDetected | src/protocol/crc.rs:4-17 | any corruption confined to sixteen consecutive bits, in a message of any length, changes the CRC |
| Crc.AdjacentBytesAreDetected | src/protocol/crc.rs:4-17 | messages that differ only within two adjacent bytes have different CRCs |
| Crc.OddErrorsAreDetected | src/protocol/crc.rs:4-17 | an odd number of flipped bits always changes the CRC |

## Left out

- Serial ports, threads, clocks, sleeps and back-off: a send that fails, a query that times out and the order of events are free choices of the model, and a section under one lock is one step.
- Reconnection (`src/link/reconnect.rs:132-239`): swapping the port and adopting the box's clip are not modelled; the replay it sends is, per table.
- Momentary overrides, the clip settings and the clip ring's loss flag (`src/link/reconcile.rs:230-375`): small maps and flags whose replay is one command a key.
- Bytes lost inside the link other than firmware chunks: the restart model's two queues lose nothing; a query may go unanswered.
- Query numbers in the restart model are unique rather than wrapping; `Correlation.FreshIff` says when the eight-bit ones are.
- The order of rewrite rules and transforms in the restart model: there a table is a map, and order is the subject of the replay lemmas of each table, `SetBeforeReplay` among them.
- The opt-in for imperfect clones: rewrite calls are modelled with it on, as they are refused beforehand with it off.
- ChunkPlan.DoneMeansStaged: says nothing of a window of 65536 chunks or more on an image longer than that; the box takes no such image, as `ChunkPlan.AcceptedImageIsStaged` states.
- The declared button count is fixed over a run of lock commands and known to both sides; before the box reports it, the host assumes five.
- The opaque digest of a firmware image, and the operations around the transfer (begin, end, activate, probation).
- Event payloads on the subscription stream, its bounded buffer and the routing of decoded events.
- A box back on another protocol, in the restart model: every command is then refused, and the system starts again at the hello that ends it (`RestartWatch.SharedWatch.NoteHello`).
- The grace period between a detach and the clone's departure: in the restart model the clone can go with any release, at any moment.
- `reset()` in the restart model takes everything at once when its frame arrives, subscriptions included; a factory reset is one followed by a boot.
- A lock that meets no clone: `LockBox.BoxApply` is the box with a clone up, and the restart model says what becomes of a lock without one.
