# A verified model of the JetKVM device core

JetKVM is a KVM-over-IP device: a browser drives a remote computer through a USB gadget (keyboard, pointer, storage),
a serial console and ATX buttons. This project models the stateful parts of its Go program that are easiest to get
subtly wrong, and proves what they promise over all inputs, all interleavings and whole runs. It verifies with

    dafny verify dfyconfig.toml

## What is modelled

**Keyboard hold protocol** (`KeyBuffer`, `Keyboard`, `KeepAlive`, `KeyHold`, `HoldSteps`, `HoldTheorem`, `TwoClients`). The
six-slot HID key buffer with its in-place edits, the per-key auto-release timers, and the keepalive filter that
extends them. `Keyboard` and `KeepAlive.Session` are the objects as their methods update them. `KeyHold` is the
protocol as a step system cut at its lock boundaries: a key event asks the USB guard, reports, announces the new state
(which resets the keepalive stamps) and updates the timer table; an auto-release has fired, removed its timer, read
the state, reports; a keepalive is judged and then prolongs the timers; a disconnect cancels the timers, asks the
guard and clears. Time is an integer count of nanoseconds, the zero time an option.

**USB gadget planner** (`Graph`, `Files`, `FileContents`, `Symlinks`, `ChangeSet`, `Convergence`, `GadgetTx`,
`GadgetOrder`, `GadgetPlan`, `EarlierItems`, `Transaction`, `TransactionConvergence`; `Layout`, `TidyKeys`, `TidyChanges`,
`TidyApply`, `TransactionSuccess`, `GadgetLinks`, `UnlinkedWrites`, `ConfiguredGadget`, `ShippedGadget`). Requested file
states become a dependency graph, a plan in two passes, and configfs operations on a tree of directories, files and
symlinks. `Transaction` builds the change set of a gadget configuration step by step; `GadgetTx` says what that change set
is. The topological sort is written and proved here. `Layout` says when a gadget is ordinary (its items' directories, files
and links do not meet); for those gadgets every transaction is accepted, succeeds on every tree with room for it, settles,
writes an enabled function only while no function is linked, and leaves the gadget in the tree as its items describe it
(`ConfiguredGadget`). `ShippedGadget` shows that the gadget the program ships is ordinary with any of its functions enabled
and its attributes in any order.

**Serial console** (`Normalize`, `Rendering`, `Lines`, `PausedTerminal`, `Console`, `ConsoleSays`, `ConsoleChunks`,
`ConsolePage`). The byte normaliser with its escape sequences, the end-of-line splitter, the bounded drop-oldest pause
buffer, and the broker that interleaves received and echoed text. `Rendering` and `ConsoleSays` say byte for byte what a
reader sees of each input and what the broker says at each step; `ConsolePage` reads the emitted texts as physical terminal
lines.

**Timed state machines** (`RateLimit` and `FailureBound`, `AtxDebounce` and `AtxRace`) and the **HID RPC wire format**
(`HidRpc`).

Input that the program takes from outside (clock, file tree, connection state) is a parameter. What the program hands to
a device, sink or broker is a list of everything attempted so far.

## What the code does not do

Ten places where the code falls short of a natural reading. Each is stated with its exact condition and a concrete
input or run, and each is left in the model as it is.

- A release on a buffer with a hole, which only a raw keyboard report can make, can strand a key
  (`KeyBuffer.ReleaseRemovesIff`, `KeyBuffer.RawReportCanStrandAKey`); and with usage 0x01 in the buffer an ordinary
  release can drop every held key (`KeyBuffer.EventDropsKeyIff`, `KeyBuffer.ReservedUsageDropsHeldKeys`).
- A key that is let go and pressed again while its auto-release is under way is released again, however punctual the
  keepalives of the new hold are (`HoldTheorem.HoldSurvivesIff`, `HoldTheorem.RepressInFlight`).
- A disconnect while USB is not ready cancels the timers of the held keys, but its clear is dropped by the guard, so they
  stay down with nobody responsible for them (`KeyHold.NoStuckKey`, `KeyHold.DisconnectClearsIff`,
  `KeyHold.DroppedClearStrandsKey`).
- Two clients that press and release the same key at once can leave it down with no timer
  (`TwoClients.DuoStuckIff`, `TwoClients.TwoClientsCanStickAKey`; with one queue `KeyHold.NoStuckKey` excludes it).
- The limiter checks and records under separate locks, so each request of an address that is under way at the same
  time adds two to the failures it lets through (`FailureBound.FailuresAreBounded`, `FailureBound.BoundIsReached`).
- Limiter cleanup changes no answer, but forgets the backoff level (`RateLimit.CleanupForgetsBackoffIff`,
  `FailureBound.SweptBackoffMatters`).
- A debounce timer that expires before it is cancelled still publishes what it captured, and makes the manager forget a
  newer timer (`AtxRace.OutOfStepIff`, `AtxRace.LateCancelDesyncs`, `AtxRace.ForgottenTimerDesyncs`).
- The macro length check wraps around on the 32-bit firmware (`HidRpc.LengthCheckExactIff`,
  `HidRpc.WrappedLengthPanics`).
- Releasing a held-back echo that is not terminated marks its line as closed, so the next received text is glued to it
  (`ConsolePage.CleanIffNothingGlued`, `ConsolePage.MixedRun`).
- The order of the links is compared with a listing by name, so with the serial console enabled behind another function
  every transaction removes all links and makes them anew (`ShippedGadget.ShippedRelinksIff`). Nor does a change at a
  path where a symlink stands ever settle (`Convergence.SettlesIff`,
  `Convergence.WriteThroughLinkNeverSettles`).

The comment on the staleness guard (`hidrpc.go:140-142`) says that it is what stops late keepalives from reviving a key;
`KeepAlive.StalenessGuardNeverDecides` shows that it never decides anything, and `KeepAlive.NoZombieRevival` that the
lateness test alone does.

## Model

| member | source | states |
|---|---|---|
| Keyboard.EditKeys | internal/usbgadget/hid_keyboard.go:534-570 | The slot loop, in place on the array: a press writes the first slot that holds the key or is empty, a release shifts it out, a press without a slot fills all six with ErrorRollOver. |
| Keyboard.ComputeReport | internal/usbgadget/hid_keyboard.go:518-570 | The report of one key event: modifiers set or clear their bit, other keys edit a copy of the slots. |
| Keyboard.Keyboard.UpdateKeysDown | internal/usbgadget/hid_keyboard.go:411-439 | A roll-over report is tracked as no keys held; the listener hears of the new state exactly when it differs. |
| Keyboard.Keyboard.KeypressReport | internal/usbgadget/hid_keyboard.go:579-600 | One event: report written, state tracked, listener told; the last attempted report agrees with the tracked state except after roll-over; a non-modifier press always (re)schedules its timer, since the state it tests is already cleared, and a release always cancels it. |
| Keyboard.Keyboard.KeyboardReport | internal/usbgadget/hid_keyboard.go:441-460 | A raw report is cut or padded to six slots, written and tracked. |
| Keyboard.Keyboard.PerformAutoRelease | internal/usbgadget/hid_keyboard.go:219-251 | A firing removes its timer and reports a release exactly when the timer was still in the table and the key is still down. |
| Keyboard.Keyboard.DelayAutoRelease | internal/usbgadget/hid_keyboard.go:206-217 | Every pending timer, and no other, gets the same new deadline. |
| Keyboard.Keyboard.CancelAllAutoReleaseTimers | internal/usbgadget/hid_keyboard.go:194-204 | No timer is left. |
| KeyBuffer.KeyStepRefinesOrderedSet | internal/usbgadget/hid_keyboard.go:533-576 | On a packed buffer of real usages a press appends or is a no-op, a release removes and keeps the order, and a seventh key sends six ErrorRollOver and leaves the buffer empty. |
| KeyBuffer.TypedRefinesOrderedSet | internal/usbgadget/hid_keyboard.go:499-577 | On every run of key events the buffer is the packed form of the ordered set of held keys: packing, no duplicates and length six hold in every reachable state. |
| KeyBuffer.ModifierTogglesItsBit | internal/usbgadget/hid_keyboard.go:464-532 | A press of usage 0xE0 + n sets bit n of the modifier byte, a release clears it; the other bits and the slots stay, in the report and in the tracked state. |
| KeyBuffer.OtherUsageEditsSlots | internal/usbgadget/hid_keyboard.go:533-571 | Every other usage leaves the modifier byte alone: a press writes the first slot that has the key or is empty, or fills all with 0x01; a release shifts the key out. |
| KeyBuffer.SeventhKeyRollsOver | internal/usbgadget/hid_keyboard.go:556-576 | A press with six other keys held is reported as six times 0x01 and tracked as no key. |
| KeyBuffer.ReleaseRemovesIff | internal/usbgadget/hid_keyboard.go:537-552 | On any buffer: a release gets rid of a key exactly when the key is absent, or occurs once with no empty slot before it. |
| KeyBuffer.RawReportCanStrandAKey | internal/usbgadget/hid_keyboard.go:441-460 | A raw report with a hole leaves a key that releasing it does not change. |
| KeyBuffer.EventDropsKeyIff | internal/usbgadget/hid_keyboard.go:411-417 | On any buffer not led by 0x01 an event drops another held key exactly when the report's slot 0 becomes 0x01: a press finds no slot or is of usage 0x01 into slot 0, or a release moves a 0x01 up into it. |
| KeyBuffer.ReservedUsageDropsHeldKeys | internal/usbgadget/hid_keyboard.go:411-417 | A run on which that happens: with usage 0x01 pressed between two keys, releasing the first drops the second too. |
| KeepAlive.Session.ResetKeepAliveTime | webrtc.go:116-121 | Both stamps become the zero time. |
| KeepAlive.Session.HandleKeypressKeepAlive | hidrpc.go:134-183 | An accepted tick moves both stamps and every pending timer, a rejected one changes nothing; keys and reports are untouched. |
| KeepAlive.VerdictIs | hidrpc.go:128-175 | Whatever the stamps are, a tick is turned away exactly if it comes more than 225 ms after the last reset of the timers or more than 100 ms after the last accepted tick; an accepted one extends by 100 ms, less what it came late. |
| KeepAlive.DeadlineIsMinimum | hidrpc.go:128-183 | On every run the deadline after the second or a later consecutive accepted tick is min(t_n + 100 ms, t_(n-1) + 150 ms), and after the first t_1 + 100 ms. |
| KeepAlive.AcceptedIff | hidrpc.go:145-175 | On every run a tick is accepted exactly when it is the first since a reset or comes at most 100 ms after the last accepted one. |
| KeepAlive.StalenessGuardNeverDecides | hidrpc.go:140-178 | On every run both stamps are equal and the 225 ms guard never changes a verdict. |
| KeepAlive.NoZombieRevival | hidrpc.go:150-183 | Once more than 100 ms have passed since the last accepted tick, no later tick has any effect until a reset. |
| KeyHold.NextIsSafe | internal/usbgadget/hid_keyboard.go:163-251 | Every step of the interleaved protocol keeps: the buffer is packed, duplicate-free and holds real keys only; an expired timer has its closure in flight; no armed timer is due later than 100 ms after the last scheduled press or prolonging keepalive; a key whose timer is about to be cancelled is up. |
| HoldSteps.KeyEventAlone | internal/usbgadget/hid_keyboard.go:579-600 | Run without interruption and with USB ready, the steps of a key event do to the tracked state and the timer table what the driver's method does, and reset the keepalive stamps if the state changes; with USB not ready they do nothing. |
| HoldSteps.AutoReleaseAlone | internal/usbgadget/hid_keyboard.go:219-251 | Those of a due timer take it from the table and release its key if it is down, and leave nothing in flight. |
| HoldSteps.OvertakenAlone | internal/usbgadget/hid_keyboard.go:219-228 | A timer that fired but was cancelled before its goroutine took the lock does nothing. |
| HoldSteps.KeepAliveAlone | hidrpc.go:134-183 | Those of a keepalive leave everything as it is, or set both stamps to now and all pending timers to one deadline. |
| HoldSteps.DisconnectAlone | webrtc.go:500-503 | Those of a disconnect cancel every timer and, with USB ready, leave no modifier and no key down. |
| KeyHold.UncoveredIff | webrtc.go:500-503 | A key still down after a step has nobody responsible for its release exactly if the step is a clear that the guard drops with no other clear under way and no release of the key pending, or a cancelled timer that was all there was, or nobody was before and the step neither presses the key again nor starts a clear. |
| KeyHold.NoStuckKey | usb.go:52-55 | On every run the held keys with nobody responsible for their release are exactly those left behind by a clear that the guard dropped, and not released, pressed again or taken on by a new clear since. With nothing pending or in flight the buffer is empty exactly if there are none, and there are none if USB was ready at every clear. |
| KeyHold.SilenceReleasesEveryKey | internal/usbgadget/hid_keyboard.go:160-177 | On every run, 100 ms after the last scheduled press or prolonging keepalive, with every due timer served, the keys that are down are exactly those left behind by dropped clears. |
| KeyHold.DisconnectClearsIff | webrtc.go:500-503 | With no event being reported, a disconnect leaves no key down exactly if USB is ready at its clear or no key was down. |
| KeyHold.DroppedClearStrandsKey | usb.go:123-128 | A run: a key is pressed, the host unplugged, the last client lost; everything is quiet and the key is down. |
| TwoClients.TwoClientsCanStickAKey | internal/usbgadget/hid_keyboard.go:579-600 | A run of the protocol with two clients instead of one queue, after which everything is quiet and the key is down. |
| TwoClients.DuoStepStrandsIff | internal/usbgadget/hid_keyboard.go:579-600 | Whichever of two clients moves, a key still down has nobody responsible for it afterwards exactly if the step drops the only clear, or ends a release of that key which the other client has overtaken by pressing it again, with only the timer it cancels left, or nobody was before and the step does not take it on. |
| TwoClients.DuoStuckIff | internal/usbgadget/hid_keyboard.go:579-600 | On every run of two clients from the start the held keys with nobody responsible are exactly those that lost their last cover in one of these two ways and were not released, pressed again or taken on by a clear since; when everything is quiet they are all the keys that are down. |
| HoldTheorem.HeldKeyIsNeverAutoReleased | hidrpc.go:128-183 | A client that sends every 50 ms with delivery delay varying by less than 50 ms never has its held key auto-released, for any hold length and any interleaving with other keys, timers and flights, if no auto-release of that key is still in flight when it is pressed. |
| HoldTheorem.HoldSurvivesIff | internal/usbgadget/hid_keyboard.go:219-251 | After any press the hold survives every such run exactly if no auto-release of the key is in flight at the press: fired, past its timer, or about to report. |
| HoldTheorem.RepressInFlight | internal/usbgadget/hid_keyboard.go:219-251 | A run on which a key is pressed while its auto-release is about to report. |
| HoldTheorem.JitterBudgetIsTight | hidrpc.go:128-130 | If the first keepalive comes 50 ms or more later than that, the timer is due when it arrives. |
| Graph.TopologicalOrder | internal/usbgadget/changeset_resolver.go:38-43 | Every vertex once, sources before targets; no order exactly when the graph has a cycle. |
| Graph.OrderedIsAcyclic | internal/usbgadget/changeset_resolver.go:38-43 | A graph that has an order has no cycle. |
| FileContents.WriteIsExact | internal/usbgadget/changeset.go:400-408 | A write that is due succeeds exactly if its path leads, over forty links at most, to a place for a file; then exactly its content is there, byte for byte, and every other node and the mounts are as before; a failed one changes nothing. |
| FileContents.MatchingIsKept | internal/usbgadget/changeset.go:292-332 | A file that has the content up to one trailing line feed is not written again. |
| FileContents.DirectoryIsExact | internal/usbgadget/changeset.go:420-422 | Asking for a directory makes exactly those missing on its path, if and only if they have a directory to grow from; a link at the path is left and does if it leads to a directory. |
| FileContents.RemovalIsExact | internal/usbgadget/changeset.go:423-424 | A removal takes away the node and nothing else, and is refused only for a directory with something in it. |
| FileContents.LinkIsExact | internal/usbgadget/changeset.go:411-418 | Asking for a link succeeds exactly where nothing or another link stands and its directory is there, or it is there already; then exactly that link is there and nothing else has changed. |
| FileContents.MountAndTouchAreExact | internal/usbgadget/changeset.go:427-430 | Mounting takes a directory; touching takes a path that leads to something, and changes no node. |
| FileContents.WriteLasts | internal/usbgadget/changeset_resolver.go:122-155 | In a plan, what a write left at the node its path led to is still exactly there at the end, if nothing behind it is aimed at that node or follows a link. |
| Files.ReorderLeavesExactly | internal/usbgadget/changeset_symlink.go:93-136 | A successful reorder leaves exactly the wanted links in the directory, whatever links were there. |
| Files.OtherGoalsKeepLinks | internal/usbgadget/changeset.go:400-432 | Changes that are not about links or removal leave the links of every directory alone, even where they write through a link. |
| Symlinks.CheckIfSymlinksInOrder | internal/usbgadget/changeset_symlink.go:26-91 | Comparing the wanted list with the directory listing, which is by name, answers yes exactly when the wanted list is in name order and holds exactly the directory's links. |
| Symlinks.SortedListsAgree | internal/usbgadget/changeset_symlink.go:18-24 | Two lists in name order that hold the same links are equal, which is what makes the list comparison a comparison of contents. |
| Symlinks.RecreateSymlinks | internal/usbgadget/changeset_symlink.go:93-136 | Removes every symlink of the directory and nothing else, then creates the wanted ones in turn and stops at the first failure. |
| ChangeSet.CollectMaps | internal/usbgadget/changeset_resolver.go:171-202 | Collecting files every change under its key and succeeds only when unconditional changes with one key agree. |
| ChangeSet.AcceptedIff | internal/usbgadget/changeset.go:165-171 | A change set is accepted exactly if its unconditional changes with one key have the same path, requested state, content, dependencies and error handling; what they trigger is not compared. |
| ChangeSet.CollectedAre | internal/usbgadget/changeset_resolver.go:176-202 | Of unconditional changes with one key the first is kept, of conditional ones the last. |
| ChangeSet.ChangeSetResolver.ToOrderedChanges | internal/usbgadget/changeset_resolver.go:26-46 | The graph grows by the current changes and their dependencies; an order results exactly when it has no cycle. |
| ChangeSet.ChangeSetResolver.ResolveChange | internal/usbgadget/changeset_resolver.go:51-87 | A change joins the plan; in the first pass one that needs action pulls in the conditional changes it names and waits for them, or reports the one that is missing. |
| ChangeSet.ChangeSetResolver.DoResolveFirst | internal/usbgadget/changeset_resolver.go:48-92 | After the first pass exactly the triggered conditional changes have joined, and a second pass is asked for exactly when something triggered. |
| ChangeSet.ChangeSetResolver.ResolveChanges | internal/usbgadget/changeset_resolver.go:94-116 | One or two passes yield the plan, or what is wrong. |
| ChangeSet.ChangeSetResolver.GetChanges | internal/usbgadget/changeset_resolver.go:171-213 | At most two passes. The plan holds each unconditional change and each triggered conditional one once, after every present change it depends on and every change it triggers; a failure is a duplicate key, a trigger nobody requested, or a real cycle. |
| ChangeSet.ConditionalIffNamed | internal/usbgadget/changeset_resolver.go:65-87 | A conditional change is in the plan exactly when a change that needs action at plan time names it. |
| ChangeSet.PlanExcludesFailure | internal/usbgadget/changeset_resolver.go:38-41 | When a plan exists the graph has no cycle, so a reported cycle means that there is none. |
| ChangeSet.ApplyChanges | internal/usbgadget/changeset_resolver.go:122-155 | Each change in order, its action resolved again against the current tree; the first error that is not ignored ends the run. |
| ChangeSet.ApplyPlanSplit | internal/usbgadget/changeset_resolver.go:122-155 | Applying two lists in a row is applying their concatenation. |
| Convergence.SettledMeans | internal/usbgadget/changeset.go:292-370 | A change resolves to nothing exactly if the tree is as it asks: the node at its path, and for ordered links exactly those links in the directory and the list in name order. |
| Convergence.SettlesIff | internal/usbgadget/changeset.go:292-432 | A change carried out without error resolves to nothing afterwards exactly if its goal can last (not a write, not a touch, not links out of name order or outside the directory) and no symlink stood at a path that was to be written or made a directory. |
| Convergence.WriteThroughLinkNeverSettles | internal/usbgadget/changeset.go:315-332 | A tree on which a write to a symlink succeeds and is due again. |
| Convergence.SettledKept | internal/usbgadget/changeset.go:400-432 | A settled change stays settled through every change that does not disturb it, whether that one succeeds or fails half way; removing something else from their directory does not disturb ordered links. |
| Convergence.ConvergesIff | internal/usbgadget/changeset.go:292-432 | After a successful apply, a change that no later one disturbs re-resolves to nothing exactly if its goal can last. |
| Convergence.SecondApplyDoesNothing | internal/usbgadget/changeset_resolver.go:122-155 | A plan of lasting changes that do not disturb each other finds nothing to do when applied again, and leaves the tree as it is. |
| GadgetOrder.NothingMissing | internal/usbgadget/config_tx.go:199-307 | Whatever a transaction triggers it has requested, and no key is both conditional and unconditional. |
| GadgetOrder.TransactionIsAcyclic | internal/usbgadget/config_tx.go:172-379 | For all items, all sets of enabled ones, all attributes in any order, all file trees, with or without rebind: the graph has no cycle. |
| GadgetPlan.UniqueKeysCollect | internal/usbgadget/changeset_resolver.go:177-202 | A change set without two different changes under one key is accepted. |
| GadgetPlan.UnlinkBeforeWrite | internal/usbgadget/config_tx.go:237-281 | Every planned write of a function that needs action at plan time comes after the unlinking of every enabled function. |
| GadgetPlan.WriteBeforeReorder | internal/usbgadget/config_tx.go:289-359 | Every write of an enabled function comes before the reordering of the links, which comes before the UDC write. |
| GadgetPlan.RebindAfterUdc | internal/usbgadget/config_tx.go:348-379 | In every plan with a rebind the controller's name is written to the gadget's `UDC`, then to the driver's `unbind`, then to its `bind`. |
| EarlierItems.EarlierBeforeLinks | internal/usbgadget/config_tx.go:172-307 | In every plan every attribute, report descriptor and configuration attribute of an enabled item listed before an enabled function comes before the reordering of the links, and that before the `UDC` write. |
| EarlierItems.EarlierBeforeLater | internal/usbgadget/config_tx.go:181-196 | And before the report descriptor of every enabled item listed behind it. |
| GadgetPlan.TransactionOrder | internal/usbgadget/config_tx.go:172-379 | In every plan of a transaction every attribute and report descriptor write of every enabled function, or an earlier one that asks for the same under its key, is in its place between unlinking, reordering, UDC write, unbind and bind. |
| GadgetPlan.UnlinkBeforeReorder | internal/usbgadget/config_tx.go:289-304 | Every unlinking that made it into the plan comes before the reordering of the links. |
| GadgetPlan.LinksAreExact | internal/usbgadget/changeset_symlink.go:26-136 | Symlink confluence: in every order a plan may have and from any initial links, a successful apply leaves exactly the enabled functions' links in the configuration directory. |
| Transaction.UsbGadgetTransaction.WriteGadgetAttrs | internal/usbgadget/config_tx.go:309-325 | One change per attribute, and the keys that later changes are to wait for. |
| Transaction.UsbGadgetTransaction.GetDisableKeys | internal/usbgadget/config_tx.go:199-212 | The unlinking keys of all enabled functions, in item order. |
| Transaction.UsbGadgetTransaction.DisableGadgetItemConfig | internal/usbgadget/config_tx.go:214-222 | A disabled item contributes at most the removal of its link. |
| Transaction.UsbGadgetTransaction.WriteGadgetItemConfig | internal/usbgadget/config_tx.go:224-307 | Directory, attributes, report descriptor, configuration attributes, conditional unlinking and place among the links of one enabled item. |
| Transaction.UsbGadgetTransaction.AddReorderSymlinkChange | internal/usbgadget/config_tx.go:327-346 | One reorder change collects all links and all keys they wait for. |
| Transaction.UsbGadgetTransaction.WriteGadgetConfig | internal/usbgadget/config_tx.go:172-197 | The loop over the items builds exactly the specified change set, followed by the UDC write. |
| Transaction.UsbGadgetTransaction.RebindUsb | internal/usbgadget/config_tx.go:361-379 | Appends unbind and bind, each waiting for its predecessor. |
| Transaction.UsbGadgetTransaction.Commit | internal/usbgadget/config_tx.go:130-140 | Without a linked function a nil dereference; otherwise a plan is always made unless two different changes share a key, and the outcome is that of applying it, up to its first error; applied without error it leaves exactly the wanted links. |
| Transaction.ConfigureUsbGadget | internal/usbgadget/config.go:275-285 | The same, for the whole configuration from an empty transaction: a nil dereference exactly if no function is enabled; for an ordinary gadget with an enabled function, on a tree with room for it, the outcome is success with the gadget in the tree as its items describe it, and room to configure it again. |
| ConfiguredGadget.TransactionConfigures | internal/usbgadget/config_tx.go:172-379 | Every plan of an ordinary gadget, on every tree with room, leaves: configfs mounted; of each enabled item its directory, every attribute (but `wakeup_on_write`) and configuration attribute with its value, its report descriptor or none; nothing of a disabled item in the configuration; exactly the enabled functions' links, each to its directory; the controller's name in `UDC`, and after a rebind exactly that name in `unbind` and `bind`. |
| ConfiguredGadget.ErrorsCount | internal/usbgadget/config_tx.go:309-379 | The only changes of a transaction that may fail are writing `wakeup_on_write` and unbinding the driver. |
| Transaction.PlanTransaction | internal/usbgadget/changeset_resolver.go:171-213 | Every transaction whose change set is accepted has a plan, whatever the file tree. |
| TransactionConvergence.TransactionSettlesIff | internal/usbgadget/config_tx.go:172-379 | After a transaction was applied without error, each of its unconditional changes whose errors count finds nothing to do exactly if it can last. |
| TransactionConvergence.LinksSettleIffSorted | internal/usbgadget/changeset_symlink.go:26-136 | After a successful transaction the next one makes the links anew exactly if the enabled functions are not listed in name order. |
| TidyKeys.TidyIsUnique | internal/usbgadget/changeset_resolver.go:189-199 | The transaction of an ordinary gadget has no clashing keys, whichever items are enabled. |
| TidyChanges.TidyLinksApart | internal/usbgadget/config_tx.go:214-222 | No removal of it, such as of a disabled function's link, is aimed at an enabled function's link. |
| TidyChanges.TidyIsPeaceful | internal/usbgadget/config_tx.go:172-379 | No unconditional change of it undoes another, disabled functions included. |
| TidyApply.ReadySucceeds | internal/usbgadget/changeset.go:400-432 | A change whose paths hold nodes of the right kind, and whose directory is there, is carried out without error. |
| TidyApply.KindKept | internal/usbgadget/changeset.go:400-432 | Changes that are fair to each other keep the nodes at each other's paths of the right kind. |
| TransactionSuccess.TidyTransaction | internal/usbgadget/config_tx.go:172-379 | For an ordinary gadget, any enabled functions, any plan and any tree with room: no change fails, exactly the enabled functions' links are left, each change that can last finds nothing to do the next time and no other, and there is room to do it again. |
| UnlinkedWrites.WritesMeetNoLinks | internal/usbgadget/config_tx.go:237-304 | For an ordinary gadget whose functions have devices of their own, on a tree with room, in every plan: whenever an attribute or the report descriptor of an enabled function needs action when its turn comes, no enabled function's link is in the configuration directory. |
| GadgetLinks.LinkedIff | internal/usbgadget/config_tx.go:289-304 | A transaction has links exactly if some function is enabled. |
| GadgetLinks.LinksSortedIff | internal/usbgadget/config_tx.go:327-346 | Its links are in name order exactly if the enabled functions' names rise with their position. |
| GadgetLinks.FreshHasRoom | internal/usbgadget/usbgadget.go:105-106 | A system with nothing but configfs and the driver has room for every ordinary gadget. |
| ShippedGadget.ShippedIsTidy | internal/usbgadget/config.go:27-89 | The shipped gadget meets the conditions of an ordinary one: under any name, for any controller, with any contents of its attributes, any of its functions enabled, and its attributes in any order a map iteration may give. |
| ShippedGadget.ShippedOwnsDevices | internal/usbgadget/config.go:27-89 | The functions of the shipped gadget have devices of their own. |
| ShippedGadget.ShippedOnFreshSystem | internal/usbgadget/config.go:275-285 | With any function enabled, every plan for it succeeds on a fresh system and leaves it there as its items describe it. |
| ShippedGadget.ShippedKeyboard | internal/usbgadget/hid_keyboard.go:17-30 | With the keyboard enabled: `hid.usb0` is linked into `configs/c.1`, its attributes and report descriptor are in `functions/hid.usb0`, and the gadget is bound, all at their literal paths. |
| ShippedGadget.ShippedLinksSortedIff | internal/usbgadget/serial_console.go:3-8 | Its links are in name order exactly if the serial console is not enabled along with a function in front of it. |
| ShippedGadget.ShippedRelinksIff | internal/usbgadget/changeset_symlink.go:26-136 | Once configured, the links are removed and made anew by the next transaction exactly if it is. |
| Normalize.NormalizeText | serial_console_helpers.go:52-202 | One pass over the bytes renders the tokens (escape sequences, CR/LF pairs, single bytes) one by one. |
| Rendering.ControlShown | serial_console_helpers.go:169-196 | A control byte in front of any text is shown as a caret and the byte plus 0x40 modulo 128, as its ASCII name in angle brackets, or as backslash, x and the two upper-case digits of its value; the rest is shown as by itself. |
| Rendering.TextShown | serial_console_helpers.go:158-199 | A tab is shown as the configured text or stays, every other visible byte stays. |
| Rendering.LineEndShown | serial_console_helpers.go:92-156 | CR, LF and the two pairs are one line end, shown as the mark of the mode, behind a tag that names what was seen if tags are on. |
| Rendering.EscapeShown | serial_console_helpers.go:58-90 | A preserved escape sequence is shown byte for byte up to its first end or the end of the input. |
| Normalize.NormalizeIsIdempotent | serial_console_helpers.go:52-202 | Normalising twice is normalising once, for every input (truncated escape sequences included), line-ending mode, control mode and ANSI setting, without newline tags and with a tab rendering free of control bytes. |
| Normalize.TaggedIdempotentIff | serial_console_helpers.go:95-119 | With newline tags, and a tab rendering free of control bytes, a second pass changes the text exactly when it holds a newline. |
| Normalize.NormalizeSplits | serial_console_helpers.go:52-202 | Normalising is a homomorphism on cuts at token boundaries. |
| Lines.SplitAfterAnyEOL | serial_console_helpers.go:499-536 | The pieces are the lines of the text with their marks, in every mode, plus an empty piece where the library call leaves one. |
| Lines.SplitAfterIsPieces | serial_console_helpers.go:504-514 | Cutting behind every occurrence of the separator is the same as cutting line by line. |
| Lines.PiecesPartition | serial_console_helpers.go:516-536 | As-is mode: the pieces concatenate to the input; every piece but possibly the last is a body without newline bytes closed by one greedy mark; the text ends in a line end exactly when its last piece does. |
| Lines.LastPieceEnds | serial_console_helpers.go:538-557 | In every mode the end-of-line test of a text agrees with that of its last piece. |
| Lines.EndsWithEOLByLast | serial_console_helpers.go:538-557 | The suffix tests, read off the last one or two bytes. |
| PausedTerminal.NewestIsLongestSuffix | serial_console_helpers.go:570-581 | Dropping the oldest leaves the longest suffix within both limits. |
| PausedTerminal.NewestAppend | serial_console_helpers.go:570-581 | Dropping after every write comes to the same as dropping once at the end. |
| PausedTerminal.DeliverIs | serial_console_helpers.go:559-581 | A text is sent, or held back while paused, or dropped if it is empty or there is no sink; held text is lost only beyond the limits. |
| PausedTerminal.SetPausedIs | serial_console_helpers.go:301-312 | Pausing sends nothing; resuming sends what is held, in order, and holds nothing any more. |
| PausedTerminal.PauseBufferRefines | serial_console_helpers.go:559-594 | On every run a paused terminal holds the longest suffix within the limits of what was written since the pause; while the limits are not exceeded, sent plus held is everything written, in order. |
| Console.ConsoleBroker.EnqueueBuffered | serial_console_helpers.go:570-581 | The incremental buffer keeps its byte count and the newest entries within the limits. |
| Console.ConsoleBroker.EmitToTerminal | serial_console_helpers.go:559-568 | Empty texts and a missing sink drop out; otherwise the text is sent, or buffered while paused. |
| Console.ConsoleBroker.SetTerminalPaused | serial_console_helpers.go:301-312 | Resuming sends everything held, in order; pausing sends nothing. |
| Console.ConsoleBroker.FlushBuffer | serial_console_helpers.go:583-594 | Everything held is sent in order, or dropped without a sink, and the buffer is empty. |
| Console.ConsoleBroker.EmitTX | serial_console_helpers.go:427-470 | An echo: line break if a received line is open, label unless an echo line is open, text, and for system messages the missing line end. |
| Console.ConsoleBroker.FlushPendingTX | serial_console_helpers.go:472-479 | A held-back echo is emitted once, and its line counts as closed whether or not it is. |
| Console.ConsoleBroker.HandleRX | serial_console_helpers.go:361-410 | Received data: an open echo line is ended, each new line is labelled, a held-back echo follows once the data ends a line; the terminal receives exactly these texts. |
| Console.ConsoleBroker.HandleTX | serial_console_helpers.go:412-425 | An echo is shown at once on a free line and held back otherwise, where a later one replaces it. |
| Console.ConsoleBroker.HandleQuiet | serial_console_helpers.go:324-330 | The quiet timeout breaks the line and shows the held-back echo. |
| ConsoleSays.StepSays | serial_console_helpers.go:324-494 | In every mode and at every step the broker only adds texts; each line break of its own is one mark of the mode (a line feed as-is) without a label, and each label is `RX: `, `TX: ` or `TX[System]: `. |
| ConsoleSays.EchoSays | serial_console_helpers.go:412-470 | An echo on a free line is the text behind the label of its origin, with a line break before it if a received line is open and after it if a system message needs one; otherwise nothing is said. |
| ConsoleSays.QuietSays | serial_console_helpers.go:324-330 | The quiet timeout says a line break and then the held-back echo in the same way. |
| ConsoleSays.ReceiveBreaks | serial_console_helpers.go:367-371 | Received data with an echo's line open says a line break first. |
| ConsoleChunks.SayLinesIsLabelled | serial_console_helpers.go:382-405 | Labelling line by line is labelling the byte stream at its line starts. |
| ConsoleChunks.TokenCutIsEolCut | serial_console_helpers.go:52-202 | With a tab rendering free of control bytes, a cut between tokens of the input never falls inside an end-of-line mark of the normalised text. |
| ConsoleChunks.ChunksDoNotMatter | serial_console_helpers.go:361-410 | With no echo held back and a tab rendering free of control bytes, receiving a and then b emits the same bytes and ends in the same state as receiving a + b, for every cut at a token boundary and every line-ending and control mode. |
| ConsolePage.StepKeepsInv | serial_console_helpers.go:361-479 | Every event but text received onto a released, unterminated echo keeps the page clean and the broker's line flags in step with the cursor, or wrong only about such an echo. |
| ConsolePage.CleanIffNothingGlued | serial_console_helpers.go:361-479 | In every line-ending mode, on every run: the page, its rows ended by the mode's mark, is clean exactly if every released echo that received text follows closes its line. |
| ConsolePage.NoMixedLines | serial_console_helpers.go:361-479 | In every line-ending mode, on every run in which the echoes that have to wait end their lines, no physical line holds received and transmitted text, and each line of received text carries exactly one RX label, at its start. |
| ConsolePage.LineEndReleases | serial_console_helpers.go:373-409 | A held-back echo is released exactly by a chunk whose normalised text ends in a line end. |
| ConsolePage.QueuedEchoCleanIff | serial_console_helpers.go:472-479 | After any run with a clean page and an echo waiting, when a chunk ends the open line and more text follows, the page is still clean exactly when the echo ends its line, is a system message or is empty. |
| ConsolePage.MixedRun | serial_console_helpers.go:361-479 | Output, a keystroke's echo, the line end, more output: a run from the start whose page is not clean. |
| RateLimit.WindowDoubles | ratelimit.go:76-83 | The window is 15 minutes at level zero, then 30, 60 and from the third level on 120. |
| RateLimit.NextEntry | ratelimit.go:121-160 | A failure behind the window starts the next one, a level higher up to the third if five failures locked the last one or the level was not zero; within the window it counts, and from the fifth on locks for the window's length. |
| RateLimit.RateLimiter.IsAllowed | ratelimit.go:87-118 | Refused exactly while locked; the advertised number of seconds is enough and at most one second too many. |
| RateLimit.RateLimiter.RecordFailure | ratelimit.go:121-160 | New entry, new window with or without escalation, one more attempt, or lockout, for this address only. |
| RateLimit.RateLimiter.RecordSuccess | ratelimit.go:163-167 | The address is forgotten, others stay. |
| RateLimit.RateLimiter.Cleanup | ratelimit.go:61-73 | Exactly the unlocked entries whose window is over go. |
| FailureBound.FailuresAreBounded | ratelimit.go:61-160 | Sliding-window bound: on every run in which only allowed requests record failures and at most n requests of an address are under way at once, with cleanups and other addresses interleaved anywhere, every half-open 15-minute interval holds at most 2n + 6 of its failures. |
| FailureBound.AtMostEightFailures | ratelimit.go:61-160 | With requests that do not overlap the bound is 8. |
| FailureBound.BoundIsReached | web.go:520-540 | For every n a run on which 2n + 6 failures fall into one such interval. |
| RateLimit.CleanupKeepsAnswers | ratelimit.go:61-73 | Cleanup never changes an answer, now or later. |
| RateLimit.CleanupForgetsBackoffIff | ratelimit.go:61-73 | The next failure leads to the same entry with and without cleanup exactly when the entry was kept or had no escalation to carry over. |
| FailureBound.SweptBackoffMatters | ratelimit.go:61-73 | A run on which that matters: the window behind the first lockout is 30 minutes long without a cleanup, 15 with one. |
| AtxDebounce.Manager.PublishATXState | mqtt_publish.go:76-137 | Disconnected: nothing; no debounce: published at once; otherwise the debounce rule decides on publication, timer and last state. |
| AtxDebounce.Manager.RunTimerClosure | mqtt_publish.go:131-136 | The closure publishes what it captured and clears the timer field, whatever it holds. |
| AtxDebounce.DebounceIsSafe | mqtt_publish.go:76-151 | On every run with atomic cancellation: without a timer the last publication is the latest frame, with one they differ only in the disk LED published ON; an OFF after an ON is published with a power change or after the LED stayed off, power unchanged, for the whole debounce time; consecutive publications differ. |
| AtxRace.OutOfStepIff | mqtt_publish.go:76-151 | On every run, with any number of cancellations that came too late: subscribers are out of step exactly if since the last frame a closure has run and the last one captured something else than that frame. |
| AtxRace.NextFrameSyncs | mqtt_publish.go:76-137 | Whatever has happened, the next frame brings them back, whichever it is. |
| AtxRace.CancellingFrameDiffers | mqtt_publish.go:96-111 | On every run the frame that cancels a timer differs from what the timer captured. |
| AtxRace.OnlyOvertakenDesyncs | mqtt_publish.go:131-136 | A closure puts subscribers out of step only if a differing frame came after its timer was started; the current timer's never does. |
| AtxRace.CancelledInTimeIsSafe | mqtt_publish.go:145-151 | If no frame is accepted between a timer's expiry and its closure, subscribers are always in step. |
| AtxRace.LateCancelDesyncs | mqtt_publish.go:131-151 | A run on which a timer cancelled too late publishes OFF while the LED is on. |
| AtxRace.ForgottenTimerDesyncs | mqtt_publish.go:131-151 | A run on which a late closure makes the manager forget a newer timer, which publishes OFF a debounce time later. |
| HidRpc.Marshal | internal/hidrpc/hidrpc.go:62-72 | Type byte and payload; type zero is refused. |
| HidRpc.Unmarshal | internal/hidrpc/hidrpc.go:50-59 | Accepts exactly the non-empty frames, and returns the message a frame is made of. |
| HidRpc.FrameRoundTrip | internal/hidrpc/hidrpc.go:50-72 | Unmarshal undoes Marshal on messages with non-zero type, and Marshal undoes Unmarshal. |
| HidRpc.HighByteFirst | internal/hidrpc/message.go:124-160 | Integers are read and laid out high byte first. |
| HidRpc.ParseSteps | internal/hidrpc/message.go:131-142 | The offset loop stays inside the payload exactly when it is long enough; step i is the modifier, six usages and big-endian delay at byte 5 + 9i, and the steps re-encode to the bytes read. |
| HidRpc.KeyboardMacroReport | internal/hidrpc/message.go:118-149 | Of messages of type 0x07 accepts exactly the payloads of 5 + 9n bytes with n their big-endian step count, and returns the flag and the steps laid out in them; the other outcomes by type, length and wrap-around. |
| HidRpc.ParseOfLayout | internal/hidrpc/message.go:118-149 | Parsing the layout of any list of six-key steps returns exactly that list. |
| HidRpc.LayoutOfParseIff | internal/hidrpc/message.go:123-149 | Re-encoding an accepted payload returns its bytes exactly when the flag byte is 0 or 1. |
| HidRpc.DescribesOne | internal/hidrpc/message.go:118-149 | A payload describes one macro only. |
| HidRpc.LengthCheckExactIff | internal/hidrpc/message.go:126-130 | The length check is exact with a 64-bit int, and with a 32-bit int exactly for layouts shorter than 2^31 bytes. |
| HidRpc.WrappedLengthPanics | internal/hidrpc/message.go:126-142 | A ten-byte payload that claims 477218589 steps passes the check on a 32-bit int and panics. |
| HidRpc.CoordinateIff | internal/hidrpc/message.go:158-160 | Four bytes read as an int are a coordinate exactly when they are its two's-complement bytes and the int can hold it. |
| HidRpc.PointerReportIff | internal/hidrpc/message.go:163-177 | A message yields a pointer report exactly when it is of type 0x03 and that report's layout. |
| HidRpc.GamepadReportIff | internal/hidrpc/message.go:209-228 | A message yields a gamepad report exactly when it is of type 0x0A and that report's layout. |

## Left out

- The results and timeouts of writes to `/dev/hidg0`: tracked state is updated whatever the write returns, so reports are
  recorded as attempted. The USB state may change at any time; how the program finds and recovers it is not modelled.
- Aliasing of a caller's key slice with the tracked state: states are values.
- Several sessions: key events come from one input queue, one at a time (`TwoClients.TwoClientsCanStickAKey` shows why).
  Macros, which send raw reports, are outside the hold protocol; raw reports themselves are in `Keyboard` and `KeyBuffer`.
- KeyBuffer.TypedRefinesOrderedSet: usages 0x00 and 0x01 are excluded, since they are no keys
  (`KeyBuffer.ReservedUsageDropsHeldKeys` shows what 0x01 does).
- ChangeSet.ChangeSetResolver.GetChanges: the plan is described for change sets in which no key is both conditional and
  unconditional; with such a key the result depends on the order of a Go map. Transactions never have one
  (`GadgetOrder.NothingMissing`).
- ChangeSet.ChangeSetResolver.DoResolveFirst: the same restriction.
- ChangeSet.ChangeSetResolver.ResolveChanges: the same restriction.
- GadgetPlan.TransactionOrder: a write whose key an earlier change with the same content has taken is planned as that
  change, with that change's triggers.
- UnlinkedWrites.WritesMeetNoLinks: for functions with devices of their own, since unlinking is requested by device; the
  shipped ones have them.
- GadgetPlan.LinksAreExact: for links directly in the configuration directory that no disabled item shares; ordinary
  gadgets have no others (`TidyChanges.TidyLinksApart`).
- Convergence.ConvergesIff: changes with ignored errors are excluded, since their failure goes unseen; which later change
  may disturb an earlier one is stated by path and goal, on the safe side.
- TransactionConvergence.TransactionSettlesIff: for transactions whose changes do not undo each other, with no symlink at
  a path that is to be written or made a directory; ordinary gadgets on a tree with room meet both.
- TransactionSuccess.TidyTransaction: the tree is not changed by the kernel; configfs itself may refuse what the model
  allows, such as removing a link of a bound gadget.
- The memo of a change's action: actions are functions of the tree, and planning does not change the tree. The
  dependencies found while resolving are a field of the resolver instead of each change.
- The topological order the library picks: any order with sources before targets is allowed. Edges from a change to
  itself carry no order.
- File content comparison for octal values, `inquiry_string` and an empty `file`: content matches up to a trailing
  newline. A nil and an empty dependency list are the same.
- Symlinks in the middle of a path, relative link targets, device nodes, permissions, read errors, attributes that the
  kernel creates or refuses, and the timeouts of planning and applying.
- ConsolePage.NoMixedLines: a two-byte mark ends a row where both its bytes are in one text; a tab rendering that begins with
  the second byte could complete one begun by the text before it.
- Replacing the sink or the normalisation options while the broker runs, unknown values of the mode enumerations, and the
  length of the quiet period: the timeout may come whenever an echo is held back.
- HidRpc.KeyboardMacroReport: a payload's capacity is its length, so a header cut short is a panic; with spare capacity
  behind it the program would report a wrong length instead.
- RateLimit.RateLimiter.IsAllowed: the seconds until retry are computed exactly, not in floating point.
- AtxDebounce.DebounceIsSafe: cancelling a timer is atomic; `AtxRace` is about what happens otherwise.
- FailureBound.FailuresAreBounded: no request of the address succeeds, since a success forgets its failures.
- HoldTheorem.HeldKeyIsNeverAutoReleased: no time passes between judging a keepalive and prolonging the timers, though
  other steps may come between.
- HoldTheorem.HoldSurvivesIff: about presses that change the tracked state, which reset the keepalive stamps.
- Easy members: the queue index of a message, the constructors of outgoing messages, key press and mouse payloads,
  LED state, gamepad slots, the session registry.
- Everything around these parts: WebRTC, HTTP, MQTT and gRPC transport, configuration, OTA updates, virtual media,
  networking, display, metrics and logging.
