# Plugin lifecycle, token purchases and money arithmetic, verified

A Dafny model of the parts of this platform whose correctness is not visible from one
function at a time. Check it with `dafny verify dfyconfig.toml`.

**Plugin lifecycle.** `DependencyResolver` sorts plugins in rounds; `PluginManager` enables,
disables and, at boot, restores them through the environment, dependency and licence gates;
`JsonFilePluginConfigStore` remembers the flags.

- `Graphs`, `TopologicalOrder`: dependency graphs, cycles by pigeonhole, and what the rounds
  compute on every input: a permutation whose first part is in dependency order and whose
  tail is exactly the names that lead to a cycle, in input order; idempotent.
- `OnePass`, `Boot`: one pass in that order reaches the least fixed point of the enabling rule,
  whatever order the names are stored in; exactly when a boot completes.
- `Versioning`, `DependencyResolver`, `ConfigStore`, `PluginManager`: the code as loops and
  classes, proved against the functions of `Lifecycle`; `Operations`: what each operation
  does, without reference to those functions.
- `Consistency`, `Runs`: exactly which runs keep the enabled plugins closed under their
  dependencies, in range, gated and free of cycles, aborted boots and failed saves included.
- `Restart`: exactly when a restart rebuilds what was enabled, configurations included, at
  every point of a run; version pins settle after one boot.
- `StoreProtocol`: the write path (temporary file, then replace) against readers that retry,
  as interleaved steps of any number of processes.

**Token purchases.** `Tokens` specifies the ledger, the purchase states, the line-item registry
and the capture, refund and restore services; `PaymentHandlers` holds the services as objects;
`PurchaseRuns` proves what holds after any operations in any order, duplicates included;
`InvoiceFlow` what one invoice's capture, replay, refund and restoration do, and
`InvoiceOutcomes` the same in plain terms, refusals included.

**Money.** `Rounding` (half away from zero), `Tax`, `TaxBoundary`, `Currency` and `Pricing`: round trips with
two roundings, with the exact condition under which they hold, and cent bounds over lists of
taxes.

**Companions.** `EventDispatcher`: incremental sorting is one stable sort of the surviving
listeners. `Sdk`: retry with back-off inside an idempotency cache.

Three findings about the code:

- `disable_plugin` compares the bare name with the dependency strings as written, so a
  dependency with a version range does not hold its target. Of any run,
  `Runs.RunConsistentIff` and `Restart.RestartRoundTripIff` say exactly when this does harm:
  when a disable goes for a name that an enabled plugin needs and none lists bare.
  `Runs.RangedDependencyDoesNotHold` is such a run for every satisfied dependency string
  other than the bare name.
- The temporary file's name depends on the process id alone while workers have several
  threads (gunicorn.conf.py:34). `StoreProtocol.PublishesLatestIff` and
  `StoreProtocol.ReadsWholeIff`: the store is safe in every run if and only if no two clients
  share a process. Two that do can replace a good manifest with an empty one.
- A purchase is saved as completed before its tokens are credited, so an amount that is not
  positive, or a hook that objects, leaves it completed without tokens
  (`PurchaseRuns.ActivationCreditsIff`). Token bundles are created with positive amounts
  (vbwd/routes/admin/token_bundles.py:93-94); lemmas that need it say so.

## Model

| member | source | states |
|---|---|---|
| TopologicalOrder.SortPermutes | vbwd/plugins/dependency_resolver.py:106-128 | no name is lost, invented or repeated, on any input, cyclic ones included |
| TopologicalOrder.StuckIffLeadsToCycle | vbwd/plugins/dependency_resolver.py:110-126 | a name is left over exactly when it is on a dependency cycle or leads to one, and resolved exactly otherwise |
| TopologicalOrder.SortShape | vbwd/plugins/dependency_resolver.py:84-128 | the order is a dependency-ordered list of the names that lead to no cycle, followed in input order by exactly those that do |
| TopologicalOrder.SortFixedPoints | vbwd/plugins/dependency_resolver.py:106-128 | the input comes back unchanged if and only if it is an ordered run followed by names blocked on it |
| TopologicalOrder.SortIdempotent | vbwd/plugins/dependency_resolver.py:106-128 | sorting a sorted list changes nothing, on every input, cycles and repeated names included |
| TopologicalOrder.SortKeepsOrderedInput | vbwd/plugins/dependency_resolver.py:88-91 | an input that already lists dependencies first keeps its order |
| DependencyResolver.ScanOnce | vbwd/plugins/dependency_resolver.py:111-120 | the inner loop resolves exactly one round, counting a name resolved within the round at once |
| DependencyResolver.SortInRounds | vbwd/plugins/dependency_resolver.py:106-128 | the outer loop, which stops at the first scan without progress, computes the specified sort |
| DependencyResolver.InSetDependencies | vbwd/plugins/dependency_resolver.py:95-104 | exactly the parseable dependencies of one plugin that are in the list |
| DependencyResolver.BuildInSetGraph | vbwd/plugins/dependency_resolver.py:93-104 | the graph holds the dependencies inside the list, skips malformed strings, and takes the last plugin of a name |
| DependencyResolver.LastOneCounts | vbwd/plugins/dependency_resolver.py:93-104 | of plugins that share a name the last one's dependencies constrain the order |
| DependencyResolver.EnableOrder | vbwd/plugins/dependency_resolver.py:84-128 | the loops compute the specified order |
| DependencyResolver.Check | vbwd/plugins/dependency_resolver.py:25-54 | the loop reports the first dependency that is malformed, missing, not enabled or out of range |
| DependencyResolver.CheckMeaning | vbwd/plugins/dependency_resolver.py:28-54 | the check passes if and only if every dependency is registered, enabled and in range |
| DependencyResolver.FirstProblem | vbwd/plugins/dependency_resolver.py:33-54 | a refusal names the first unmet dependency: malformed, of no enabled plugin, or of one whose installed version is outside the range |
| DependencyResolver.DescribeOne | vbwd/plugins/dependency_resolver.py:68-81 | a descriptor shows name, range and installed version, and says satisfied exactly when the gate would pass it |
| DependencyResolver.Describe | vbwd/plugins/dependency_resolver.py:56-82 | one truthful descriptor per dependency, in order; none only when a string does not parse |
| DependencyResolver.DescribedGate | vbwd/plugins/dependency_resolver.py:25-82 | all descriptors say satisfied if and only if the enabling gate passes |
| Versioning.ParseDependency | vbwd/plugins/versioning.py:39-80 | the scan for the first operator character computes the specified split, errors included |
| Versioning.ParseMeaning | vbwd/plugins/versioning.py:52-80 | any string is refused if and only if it is blank, begins with an operator or has an invalid range; else the range starts at its first operator character and the name is what stands before |
| Versioning.OperatorsEndTheName | vbwd/plugins/versioning.py:15 | each of the five operator characters ends the name |
| Versioning.OtherCharactersAreName | vbwd/plugins/versioning.py:56-64 | a string without them is all name |
| Versioning.SpacesByCodePoint | vbwd/plugins/versioning.py:52 | the characters stripped, by code point |
| Versioning.ParseRoundTrip | vbwd/plugins/versioning.py:39-80 | a name and a valid range, written with any white space around them, parse back to that name and range |
| ConfigStore.SavedIsValid | vbwd/plugins/json_config_store.py:117-143 | a save keeps the manifest well formed: each key once |
| ConfigStore.SavedEffect | vbwd/plugins/json_config_store.py:117-143 | a save sets or clears exactly one flag, keeps every other entry and the order, and touches the pin only when one is given |
| ConfigStore.EnabledEntriesMeaning | vbwd/plugins/json_config_store.py:100-115 | the enabled entries are exactly the flagged names, each once, with stored pin and configuration |
| ConfigStore.EntriesInFileOrder | vbwd/plugins/json_config_store.py:105-115 | the entries come in the order of the file |
| ConfigStore.JsonFilePluginConfigStore.Save | vbwd/plugins/json_config_store.py:117-148 | both files after a save, also when writing the first or the second file fails |
| ConfigStore.JsonFilePluginConfigStore.GetEnabled | vbwd/plugins/json_config_store.py:100-115 | the loop lists the specified entries in file order |
| ConfigStore.JsonFilePluginConfigStore.GetByName | vbwd/plugins/json_config_store.py:150-162 | the entry stored under the name, if there is one |
| PluginManager.Plugin.Initialize | vbwd/plugins/base.py:80-89 | any status becomes initialized; an empty configuration is not taken over |
| PluginManager.Plugin.Enable | vbwd/plugins/base.py:103-108 | only an initialized plugin whose hook succeeds becomes enabled; otherwise nothing changes |
| PluginManager.Plugin.Disable | vbwd/plugins/base.py:110-115 | only an enabled plugin whose hook succeeds becomes disabled; otherwise nothing changes |
| PluginManager.PluginManager.RegisterPlugin | vbwd/plugins/manager.py:53-68 | a name is registered once |
| PluginManager.PluginManager.Discover | vbwd/plugins/manager.py:374-388 | discovery adds a new initialized plugin and leaves known names alone |
| PluginManager.PluginManager.CheckLicense | vbwd/plugins/manager.py:115-145 | free plugins pass; others pass exactly when some declared feature is covered by a licence context |
| PluginManager.PluginManager.PassGates | vbwd/plugins/manager.py:164-174 | environment, dependency and licence gates, in this order, with the first failure reported |
| PluginManager.PluginManager.TurnOn | vbwd/plugins/manager.py:176 | in the registry, one status changes to enabled or nothing does |
| PluginManager.PluginManager.TurnOff | vbwd/plugins/manager.py:311 | in the registry, one status changes to disabled or nothing does |
| PluginManager.PluginManager.PersistState | vbwd/plugins/manager.py:204-211 | afterwards the file pins the plugin's own version beside its flag and holds its configuration, unless writing failed; every other entry and the registry are untouched |
| PluginManager.PluginManager.EnablePlugin | vbwd/plugins/manager.py:147-211 | the loops and branches reach the specified registry, files and outcome; where it is Done the files record flag, own version and configuration |
| PluginManager.PluginManager.CliEnable | vbwd/cli/plugins.py:58-83 | an enabled plugin is left alone, a disabled one is re-armed first |
| PluginManager.PluginManager.DisablePlugin | vbwd/plugins/manager.py:285-320 | an enabled plugin that lists the bare name blocks; where it is Done the files record flag, own version and configuration |
| PluginManager.PluginManager.ReconcileVersionPin | vbwd/plugins/manager.py:239-278 | a differing non-empty pin is rewritten to the loaded version, nothing else changes |
| PluginManager.PluginManager.EnableIfGated | vbwd/plugins/manager.py:453-479 | the boot's gates; only a malformed dependency string escapes |
| PluginManager.PluginManager.Restore | vbwd/plugins/manager.py:433-479 | one turn of the boot loop, in the order environment, configuration, pin, gates |
| PluginManager.PluginManager.CollectPending | vbwd/plugins/manager.py:418-430 | the stored entries of registered plugins, and those still initialized, in stored order |
| PluginManager.PluginManager.RestoreInOrder | vbwd/plugins/manager.py:432-479 | the boot's second loop, ended by the first fatal turn |
| PluginManager.PluginManager.LoadPersistedState | vbwd/plugins/manager.py:395-479 | the whole boot equals its specification on values |
| Operations.GatesMeaning | vbwd/plugins/manager.py:115-145 | the gates pass exactly when every dependency names an enabled plugin in range, and the licence is not asked for or one declared feature is covered |
| Operations.EnableMeaning | vbwd/plugins/manager.py:160-211 | enabling goes through if and only if the plugin is initialized and environment, dependencies, licence and hook are in order; then exactly its status changes and the files pin its own version, set its flag and hold its configuration; else nothing changes |
| Operations.EnableRefusals | vbwd/plugins/manager.py:160-174 | the reason given is the first gate that fails |
| Operations.DisableMeaning | vbwd/plugins/manager.py:295-320 | disabling goes through if and only if the plugin is enabled, no enabled plugin lists its bare name and its hook succeeds; then exactly its status changes and the files record it, configuration included |
| Operations.CliEnableMeaning | vbwd/cli/plugins.py:66-77 | from the command line a disabled plugin whose gates pass ends enabled, an enabled one is left alone, and a refusal leaves the files alone |
| Operations.DiscoverMeaning | vbwd/plugins/manager.py:374-388 | exactly a new name is registered, initialized and without configuration |
| Operations.ConfigureMeaning | vbwd/plugins/base.py:255-257 | one value of one plugin's configuration changes in memory, nothing on file |
| Operations.TurnEffect | vbwd/plugins/manager.py:433-479 | one boot turn on a plugin, in every case: stored configuration, pin, status, and which answer ends the boot |
| OnePass.OnePassIsLeastFixedPoint | vbwd/plugins/manager.py:432-479 | one pass in sorted order reaches the least set closed under the enabling rule, in which a name is exactly when it is ready and all it needs is |
| OnePass.CyclesStayOut | vbwd/plugins/manager.py:432-479 | no name on or leading to a cycle of pending names is ever enabled by the pass |
| OnePass.OrderIndependent | vbwd/plugins/manager.py:432-479 | the result does not depend on the order the names come in |
| OnePass.ConsistentSetIsRebuilt | vbwd/plugins/manager.py:432-479 | a closed, ready, acyclic set is enabled completely from nothing |
| OnePass.NeedsAreSettled | vbwd/plugins/manager.py:432-454 | at its turn, a name on a cycle or not meets the final answer on everything it needs |
| Boot.TurnMeaning | vbwd/plugins/manager.py:433-479 | a turn changes one plugin, and enables it exactly when it is ready and everything it needs is enabled, whatever its environment and dependency strings |
| Boot.RestoredAllIsPass | vbwd/plugins/manager.py:432-479 | the boot loop on full plugin states refines the pass on sets of names, over the whole list or, when a plugin ends the boot, over the names before it |
| Boot.BootIsSafe | vbwd/plugins/manager.py:395-479 | any boot, ended early or not, enables only pending plugins that are ready and whose needs are enabled, stays within the least closed set and leaves cycles out |
| Boot.BootIsLeastFixedPoint | vbwd/plugins/manager.py:395-479 | after a boot that completes a pending plugin is enabled if and only if its gates pass, its ranges hold and all its dependencies are enabled; the result is the least such set |
| Boot.BootCompletesIff | vbwd/plugins/manager.py:439-454 | a boot completes if and only if no pending plugin has a broken environment, or a malformed dependency string behind dependencies that the least fixed point meets |
| Boot.BootIgnoresStoredOrder | vbwd/plugins/manager.py:398-399 | of two manifests that differ in key order both boots complete or neither does, and then they enable the same plugins |
| Consistency.EnableKeepsConsistent | vbwd/plugins/manager.py:160-176 | enabling keeps the enabled set closed, in range, gated and acyclic, whatever the save does |
| Consistency.CliEnableKeepsConsistent | vbwd/cli/plugins.py:58-83 | so does enabling from the command line |
| Consistency.DisableKeepsConsistentIff | vbwd/plugins/manager.py:295-311 | a call of disable keeps it if and only if the target is not enabled, or its hook refuses, or some enabled plugin lists the name bare, or none needs it |
| Consistency.BareNamesAreHeld | vbwd/plugins/manager.py:299-305 | where plugins list what they need bare, a name that an enabled plugin needs is listed by an enabled plugin |
| Runs.BootKeepsConsistent | vbwd/plugins/manager.py:395-479 | every boot keeps it, also one that ends early in a fatal error |
| Runs.BootKeepsFlags | vbwd/plugins/manager.py:239-278 | a boot rewrites pins only: flags and configurations on file stay |
| Runs.StepConsistentIff | vbwd/plugins/manager.py:53-479 | a step (discover, configure, enable, disable, boot, restart), with any failed saves and any dependency strings, keeps the enabled plugins consistent if and only if it is no disable of a name that is needed and not listed bare |
| Runs.RunConsistentIff | vbwd/plugins/manager.py:53-479 | all states of a run are consistent if and only if no disable in it goes for a name that an enabled plugin needs and none lists bare |
| Runs.BareRunHolds | vbwd/plugins/manager.py:299-305 | where every discovered plugin lists what it needs bare, no disable of any run does |
| Runs.RangedDependencyDoesNotHold | vbwd/plugins/manager.py:300-305 | for any satisfied dependency string that is not the bare name, a run from a fresh installation, consistent until then, ends with a disable that leaves the dependent enabled without its dependency |
| Restart.RestartRebuildsIff | vbwd/plugins/manager.py:395-479 | where the stored flags say what is enabled, a restart enables exactly that again if and only if the enabled plugins are consistent |
| Restart.RestartGivesBackIff | vbwd/plugins/manager.py:395-479 | where the files mirror memory, a restart gives back the same plugins, enabled and configured alike, if and only if they are consistent; the boot then completes and the files mirror memory again |
| Restart.StepKeepsMirror | vbwd/plugins/manager.py:204-211 | with its saves going through, every step keeps files and memory in agreement; a restart does if what it restarts is consistent |
| Restart.HeldRunKeepsMirror | vbwd/plugins/manager.py:313-320 | over any saved run whose disables find their names held, memory is consistent and the files mirror it |
| Restart.RestartRoundTripIff | vbwd/plugins/manager.py:395-479 | take any run from an empty installation whose saves go through and that changes no configuration in use in memory alone, with any dependency strings: at every point of it a restart ends with exactly the same enabled plugins and configurations, if and only if no disable in it goes for a name that is needed and not listed bare |
| Restart.NothingPendingWhileMirrored | vbwd/plugins/manager.py:429-430 | booting a mirrored system again changes nothing |
| Restart.RestartLoadsConfig | vbwd/plugins/manager.py:441-444 | after a boot that completes, each stored plugin has its stored configuration |
| Restart.PinsHealInOneBoot | vbwd/plugins/manager.py:239-278 | after one completed boot with successful saves, no later boot rewrites the manifest |
| Restart.SettledBootRewritesNothing | vbwd/plugins/manager.py:255-261 | pins that are absent, empty or current are never rewritten |
| StoreProtocol.StepKeepsInv | vbwd/plugins/json_config_store.py:80-98 | every step of any process keeps: the published file is complete, temporary files are private, readers hold whole files |
| StoreProtocol.RunKeepsInv | vbwd/plugins/json_config_store.py:80-98 | hence every interleaving does, crashes of writers included |
| StoreProtocol.ReadsAreAtomic | vbwd/plugins/json_config_store.py:31-56 | with one writer at a time per process: every read returns the payload that was published when it began, a client never goes back to an older one, the empty fallback means no file yet, and no read retries |
| StoreProtocol.ReplaceGoesByName | vbwd/plugins/json_config_store.py:83-87 | replacing publishes what stands under the temporary name, whoever filled it, and frees the name |
| StoreProtocol.EmptyReadIff | vbwd/plugins/json_config_store.py:41-56 | in any run, writers sharing a process or not: a read that found a file comes back empty if and only if it met five contents in a row that do not parse, and after each of the first four it starts over on the file then published |
| StoreProtocol.SharedTempPublishesEmptyFile | vbwd/plugins/json_config_store.py:83-87 | for any two clients in one process, any payload and whatever was published before, some interleaving replaces it with an empty file |
| StoreProtocol.SharedTempEmptiesReads | vbwd/plugins/json_config_store.py:41-56 | and any client that reads then takes the existing file for an absent one |
| StoreProtocol.PublishesLatestIff | vbwd/plugins/json_config_store.py:80-98 | the published file is the latest complete payload in every run if and only if no two clients share a process |
| StoreProtocol.ReadsWholeIff | vbwd/plugins/json_config_store.py:31-56 | where an empty file does not parse, every read returns what was published when it began, in every run, if and only if no two clients share a process |
| PaymentHandlers.TokenService.GetBalance | vbwd/services/token_service.py:56-59 | an unknown user's balance is zero |
| PaymentHandlers.TokenService.ApplyMovement | vbwd/services/token_service.py:65-128 | balance and row change together, or neither when a hook objects |
| PaymentHandlers.TokenService.CreditTokens | vbwd/services/token_service.py:158-199 | a positive amount is credited in full, any other is refused without effect |
| PaymentHandlers.TokenService.RefundTokens | vbwd/services/token_service.py:289-326 | the debit is clamped to the balance, and zero when there is none |
| Tokens.CreditMeaning | vbwd/services/token_service.py:186-199 | a credit goes through exactly for a positive amount no hook objects to, and then balance and row change by it; else nothing does |
| Tokens.RefundMeaning | vbwd/services/token_service.py:309-326 | a refund takes the amount or the whole balance, whichever is less, and only a hook can stop it |
| PaymentHandlers.CoreLineItemHandler.ActivateTokenBundle | vbwd/handlers/core_line_item_handler.py:61-89 | only a pending purchase acts: saved as completed, then credited |
| PaymentHandlers.CoreLineItemHandler.ReverseTokenBundle | vbwd/handlers/core_line_item_handler.py:93-118 | only a completed purchase acts: saved as refunded, then debited, with the actual debit reported |
| PaymentHandlers.CoreLineItemHandler.RestoreTokenBundle | vbwd/handlers/core_line_item_handler.py:122-149 | only a refunded purchase acts: saved as completed, then credited; the completion time stays |
| Tokens.RegisteredLater | vbwd/events/line_item_registry.py:131-143 | a handler registered later owns the lines nobody before it owns and takes none from its predecessors |
| InvoiceOutcomes.FirstClaimOwns | vbwd/events/line_item_registry.py:252-271 | the first handler that claims a line owns it, a core handler every token-bundle line and a plugin's handler what it says; else nobody does |
| InvoiceOutcomes.CoreOwnedIff | vbwd/handlers/core_line_item_handler.py:32-33 | the core handler owns exactly the token-bundle lines that no plugin's handler registered before it claims |
| InvoiceOutcomes.OnlyCoreOwnsBundles | vbwd/handlers/core_line_item_handler.py:32-33 | with the core handler alone it owns exactly the token-bundle lines |
| InvoiceOutcomes.OthersChangeNothing | vbwd/events/line_item_registry.py:252-271 | a line nobody claims is skipped and one a plugin's handler owns gets its answer; neither changes a purchase or a balance |
| PaymentHandlers.LineItemHandlerRegistry.Register | vbwd/events/line_item_registry.py:141-143 | after a registration every line keeps its owner, and a line without one gets the new handler if that owns it |
| PaymentHandlers.LineItemHandlerRegistry.Clear | vbwd/events/line_item_registry.py:145-147 | afterwards every dispatch of every line is a skip that changes no purchase and no balance |
| PaymentHandlers.LineItemHandlerRegistry.Dispatch | vbwd/events/line_item_registry.py:248-271 | the first owner handles the line, without an owner it is skipped |
| PaymentHandlers.LineItemHandlerRegistry.ProcessItems | vbwd/handlers/payment_handler.py:76-86 | the loop over the lines, with results merged in line order |
| PaymentHandlers.UserInvoice.MarkPaid | vbwd/models/invoice.py:104-119 | status, reference, method and time are set together |
| PaymentHandlers.UserInvoice.MarkRefunded | vbwd/models/invoice.py:129-131 | only the status changes |
| PaymentHandlers.FindInvoice | vbwd/handlers/payment_handler.py:37-40 | the invoice of that id, if there is one |
| PaymentHandlers.PaymentCapturedHandler.Handle | vbwd/handlers/payment_handler.py:30-121 | invoice, purchases, balances and report after a capture; an unknown invoice changes nothing |
| PaymentHandlers.RefundService.CalculateTokensToDebit | vbwd/services/refund_service.py:127-144 | the sum over the bundle lines of completed purchases, duplicates counted |
| PaymentHandlers.RefundService.ProcessRefund | vbwd/services/refund_service.py:72-125 | refusal on status or balance without effect, otherwise the reversal of every line |
| PaymentHandlers.RestoreService.ProcessRestore | vbwd/services/restore_service.py:49-86 | refusal on status, otherwise the restoration of every line |
| PurchaseRuns.RunIsExplained | vbwd/services/token_service.py:65-128 | over any run, hooks that object included, every balance is its opening value plus all credits minus all actual debits |
| PurchaseRuns.RunCounts | vbwd/handlers/core_line_item_handler.py:61-149 | for a purchase that began pending: activated at most once; activations and restorations exceed reversals by one exactly while completed; flagged exactly while completed or refunded; never cancelled |
| PurchaseRuns.CancelledStays | vbwd/handlers/core_line_item_handler.py:66-128 | a cancelled purchase never changes |
| PurchaseRuns.ActivationCreditsIff | vbwd/handlers/core_line_item_handler.py:69-81 | an acting activation reaches the ledger if and only if the amount is positive and no hook objects; the purchase is completed either way |
| PurchaseRuns.RunCredits | vbwd/handlers/core_line_item_handler.py:61-149 | whatever hooks and amounts, each acting activation or restoration adds one credit row or is missed, and nothing else adds one |
| PurchaseRuns.NothingMissed | vbwd/handlers/core_line_item_handler.py:61-149 | with a positive amount and hooks that let movements pass, none is missed |
| PurchaseRuns.CreditsMatchCompletion | vbwd/handlers/core_line_item_handler.py:61-149 | whatever hooks and amounts, credit rows plus missed credits exceed reversals by one while the purchase is completed and by none otherwise: no replay credits twice |
| PurchaseRuns.RunKeepsBalancesNonNegative | vbwd/services/token_service.py:311-326 | no run makes a balance negative |
| PurchaseRuns.RunNeverShortchanges | vbwd/handlers/core_line_item_handler.py:93-149 | whatever the hooks, a purchase's rows add up to at least its amount while completed and to at least zero otherwise, less one amount for each credit that was refused |
| InvoiceFlow.TargetsMeaning | vbwd/handlers/payment_handler.py:83-86 | the targets are exactly the distinct purchases that core-owned lines mention and whose status fits |
| InvoiceFlow.ProcessedStamps | vbwd/handlers/payment_handler.py:83-86 | processing lines stamps exactly the targets, whatever hooks and amounts |
| InvoiceFlow.ProcessedMoves | vbwd/handlers/payment_handler.py:83-86 | it moves, for this user alone, what the targets settle for one after the other, each at the balance the one before left |
| InvoiceFlow.SettledInFullIff | vbwd/services/token_service.py:158-326 | positive amounts, covered by the balance where they are debited, are moved in full if and only if no hook objects to a movement |
| InvoiceFlow.ProcessedReport | vbwd/handlers/payment_handler.py:126-135 | with the core handler alone, the report names each target whose movement went through once, in line order, and the tokens moved |
| InvoiceFlow.ProcessedEffect | vbwd/handlers/payment_handler.py:70-86 | the three together are the effect of one operation on the lines of an invoice |
| InvoiceFlow.CaptureEffect | vbwd/handlers/payment_handler.py:46-86 | a capture pays the invoice, completes exactly the distinct pending purchases it mentions and credits what they settle for; for positive amounts that is their sum if and only if no hook objects |
| InvoiceOutcomes.CaptureOutcome | vbwd/handlers/payment_handler.py:46-86 | a capture completes, stamps and flags all pending purchases of the token-bundle lines that reach the core handler and no other, and credits the sum of their amounts where hooks let it pass |
| InvoiceOutcomes.CaptureRecords | vbwd/handlers/payment_handler.py:46-65 | reference, method and time are recorded once, the event's provider before the invoice's method, and metadata are replaced key by key |
| InvoiceOutcomes.ReportMeaning | vbwd/handlers/payment_handler.py:76-86 | whoever handles the lines, the report holds the last subscription, all purchases and add-ons and the sum of the tokens that the successful answers name |
| InvoiceFlow.CaptureReplayIff | vbwd/handlers/payment_handler.py:46-86 | the same event again, with hooks and handlers of its own, changes neither invoice, metadata, purchases nor ledger, if and only if each then pending purchase on a line the core handler owns at the replay was on one it owned at first |
| InvoiceFlow.CaptureManyTimes | vbwd/handlers/payment_handler.py:46-86 | any number of deliveries, each with its own time, hooks and answers, is the first delivery, as long as the core handler owns no more lines than at first |
| InvoiceFlow.MetadataCommutesIff | vbwd/handlers/payment_handler.py:60-65 | two metadata merges commute if and only if they agree on the keys they share |
| InvoiceFlow.CaptureAfterRefund | vbwd/handlers/payment_handler.py:47-52 | a capture repeated after a refund marks the invoice paid again but moves no token and no purchase, whatever hooks answer each time |
| InvoiceFlow.PreCheckCovers | vbwd/services/refund_service.py:78-90 | the pre-check's sum is at least what the reversal debits |
| InvoiceFlow.RefundEffect | vbwd/services/refund_service.py:92-125 | a refused refund changes nothing; a granted one refunds each mentioned completed purchase once and debits what they settle for, in a sound book their sum if and only if no hook objects |
| InvoiceOutcomes.RefundGrantedIff | vbwd/services/refund_service.py:72-94 | a refund is refused if and only if the invoice is not paid, or its token-bundle lines of completed purchases, duplicates counted, add up to more than nothing and more than the balance |
| InvoiceOutcomes.CoveredIffGranted | vbwd/services/refund_service.py:78-90 | without duplicated lines a paid invoice is refunded if and only if the balance covers the total of its completed purchases |
| InvoiceOutcomes.RefundOutcome | vbwd/services/refund_service.py:92-125 | a granted refund marks all completed purchases of the token-bundle lines that reach the core handler as refunded and no other, and debits the sum of their amounts where hooks let it pass |
| InvoiceOutcomes.RestoreOutcome | vbwd/services/restore_service.py:49-86 | a restoration is refused exactly for an invoice that is not refunded; else all refunded purchases of such lines are completed again with their first completion time, and their sum is credited where hooks let it pass |
| InvoiceFlow.RestoreGivesPurchasesBackIff | vbwd/services/restore_service.py:49-86 | whatever hooks answer, restoring a granted refund gives the invoice back, and the purchases if and only if none mentioned was refunded before or completed without its flag |
| InvoiceFlow.RestoreUndoesRefundIff | vbwd/services/restore_service.py:49-86 | after a refund whose debits went through, restoring gives back invoice, purchases and every balance if and only if the purchases were so and no hook objects to the credits |
| Rounding.RoundHalfUpIff | vbwd/models/tax.py:67 | the rounded value is the nearest integer, ties away from zero, and the only one |
| Rounding.QuantizeIff | vbwd/models/currency.py:83-86 | quantizing gives the nearest multiple of the unit, ties away from zero, and no other |
| Rounding.QuantizeError | vbwd/models/currency.py:83-86 | quantizing moves a value by at most half a unit |
| Rounding.QuantizeMonotone | vbwd/models/currency.py:83-86 | quantizing keeps order |
| Tax.CalculateIff | vbwd/models/tax.py:56-79 | the tax is the cent amount nearest to net times percentage, ties away from zero, and the gross is net plus tax |
| Tax.ExtractIff | vbwd/models/tax.py:81-106 | the net is the cent amount nearest to the gross divided by one plus the percentage, and the tax is the rest |
| Tax.NetRoundTrip | vbwd/models/tax.py:56-93 | every cent-valued net comes back from its gross at every rate that is not negative, despite two roundings |
| Tax.NetRoundTripIff | vbwd/models/tax.py:56-93 | above -100% the round trip holds for all amounts if and only if the rate is not negative |
| Tax.GrossRoundTrip | vbwd/models/tax.py:69-106 | a gross is missed by at most half a cent times the gross factor plus half a cent, and a second extraction gives the same net |
| Tax.GrossRoundTripWithinCent | vbwd/models/tax.py:69-106 | below 200% a gross is missed by at most one cent |
| TaxBoundary.MissBelow300 | vbwd/models/tax.py:69-106 | for every two-decimal rate between 200% and 300% some gross is missed by two cents |
| TaxBoundary.GrossWithinCentIff | vbwd/models/tax.py:69-106 | for rates with two decimals, every gross comes back within one cent if and only if the rate is at most 200% |
| Tax.ExtractSplits | vbwd/models/tax.py:81-106 | net and tax add up to the gross, neither negative |
| Currency.UnitIsDecimal | vbwd/models/currency.py:84 | the unit with n places is ten to the power of minus n |
| Currency.ConvertToNearest | vbwd/models/currency.py:34-86 | conversion fails exactly on a source rate of zero; else it gives the decimal with the target's places nearest to amount times target rate by source rate, ties away from zero, and no other |
| Currency.RoundTripBound | vbwd/models/currency.py:67-86 | there and back moves any amount by at most half a unit here plus half a unit there at the rate back |
| Currency.ConvertMonotone | vbwd/models/currency.py:34-86 | conversion keeps order for positive rates |
| Currency.RoundTripExactIff | vbwd/models/currency.py:67-86 | all amounts in whole units come back exactly if and only if a unit there is worth no more than a unit here |
| Pricing.PriceIsBalanced | vbwd/pricing/price_factory.py:58-104 | a price exists unless gross mode meets rates adding up to -100%, and its net plus taxes is its gross in both modes |
| Pricing.ModesAreInverse | vbwd/pricing/price_factory.py:88-104 | netto from brutto and brutto from netto undo each other, for any tax list |
| Pricing.ModesAgree | vbwd/pricing/price_factory.py:64-86 | a netto read in netto mode and its brutto read in brutto mode give the same price, tax lines included |
| Pricing.PriceLists | vbwd/pricing/price_factory.py:64-86 | a price lists its object's taxes in order with code, name, rate and share of the netto, in the given currency; the stored amount is netto or brutto by mode |
| Pricing.CentsAreQuantized | vbwd/pricing/line_tax_fields.py:20-22 | the whole cents recorded are the quantized amount times the quantity |
| Pricing.CentsAreNearest | vbwd/pricing/price_payload.py:38-48 | the net of a line and net, tax and gross of a block are the nearest cents of netto, sum of taxes and brutto, ties away from zero |
| Pricing.CentsTaxByTax | vbwd/pricing/line_tax_fields.py:41-50 | lines and blocks list each tax of the price in order with its own code and rate and the nearest cents of its amount |
| Pricing.LineBound | vbwd/pricing/line_tax_fields.py:37-56 | for any balanced price and any quantity, the tax is the sum of its breakdown and net plus tax misses the rounded gross by at most (n+1)/2 cents |
| Pricing.SharpBoundIsReached | vbwd/pricing/line_tax_fields.py:37-56 | for every number of taxes some price reaches this bound and the block's, to the cent |
| Pricing.BlockBound | vbwd/pricing/price_payload.py:38-50 | the displayed net plus tax is within a cent of the displayed gross for any number of taxes, and the displayed tax within n/2 cents of the recorded one |
| EventDispatcher.SortedIff | vbwd/events/dispatcher.py:72-73 | the sort is the only list in priority order that keeps the order within each priority |
| EventDispatcher.SortIncremental | vbwd/events/dispatcher.py:66-73 | sorting after each registration is sorting once at the end |
| EventDispatcher.RemoveFromSorted | vbwd/events/dispatcher.py:84-88 | removing from the sorted list is sorting what remains |
| EventDispatcher.RunIsSortedSurvivors | vbwd/events/dispatcher.py:52-88 | after any run the list of an event is the one-shot stable sort of the surviving registrations |
| EventDispatcher.ListedIffSurvives | vbwd/events/dispatcher.py:66-88 | a listener is listed exactly when some registration of it is followed by no removal of its callback for the event |
| EventDispatcher.EarlierComesFirst | vbwd/events/dispatcher.py:10-14 | a listener of an earlier priority, from highest to lowest, stands before one of a later |
| EventDispatcher.EventDispatcher.AddListener | vbwd/events/dispatcher.py:52-73 | the listener is added to its event's list in sorted position, other events are untouched |
| EventDispatcher.EventDispatcher.RemoveListener | vbwd/events/dispatcher.py:75-88 | all registrations of the callback for the event go, the rest keeps its order |
| EventDispatcher.EventDispatcher.Dispatch | vbwd/events/dispatcher.py:90-113 | the listeners called are the prefix up to and including the first that leaves the event stopped; those of them that raise are reported in order and do not shorten it |
| Sdk.BaseSDKAdapter.WithRetry | vbwd/sdk/base.py:85-117 | outcome, invocations made and seconds slept of the retry loop, also for exhausted and negative retries |
| Sdk.RetriedIff | vbwd/sdk/base.py:102-117 | the retry block is the only execution of at most retries+1 invocations that stops at the first answer, re-raises the last transient error and doubles its waits |
| Sdk.SleptClosedForm | vbwd/sdk/base.py:110-112 | the waits after n failed attempts add up to 0.1 times (2^n - 1) seconds |
| Sdk.ExecutedIff | vbwd/sdk/base.py:63-77 | what running an operation does: invoked once without a retry block; else retried as often as given, or as configured; an error without any attempt |
| Sdk.OneSuccessPerExecution | vbwd/sdk/base.py:105-113 | however it is run, one of its invocations succeeds if that is reported and none otherwise |
| Sdk.IdempotencyService.Check | vbwd/sdk/idempotency_service.py:47-60 | the dictionary stored under the key, if any |
| Sdk.IdempotencyService.Store | vbwd/sdk/idempotency_service.py:62-75 | one entry is written |
| Sdk.IdempotencyService.Delete | vbwd/sdk/idempotency_service.py:77-84 | one entry is removed |
| Sdk.CheckAfterStoreAndDelete | vbwd/sdk/idempotency_service.py:47-84 | a store or delete is seen by its own key's check and by no other's |
| Sdk.BaseSDKAdapter.WithIdempotency | vbwd/sdk/base.py:47-83 | reply, cache, invocations and sleep of a call, with or without key and service |
| Sdk.NoKeyNoCache | vbwd/sdk/base.py:63-64 | without a key, or with an empty one, the operation runs and the cache is left alone |
| Sdk.CachedAnswer | vbwd/sdk/base.py:67-74 | a cached dictionary answers with its fields, a missing success being a failure; an empty one does not answer |
| Sdk.LaterCallsReplay | vbwd/sdk/base.py:66-83 | after a success, later calls under the key give that response without running, as long as the entry is neither lost nor overwritten |
| Sdk.SuccessesAreBounded | vbwd/sdk/base.py:66-83 | in any sequence of calls, successful runs under a key exceed the losses of its entry by at most one |
| Sdk.SucceedsAtMostOnce | vbwd/sdk/base.py:66-83 | while the entry stays stored, at most one run under the key reports success |
| Sdk.InvocationsSucceedOnce | vbwd/sdk/base.py:66-83 | counting invocations, over any mix of operations and retries: under a key those that succeed exceed the losses of its entry by at most one |
| Sdk.OneInvocationSucceeds | vbwd/sdk/base.py:66-83 | while the entry stays stored, at most one invocation under the key succeeds |
| Sdk.RunsIffNoSuccess | vbwd/sdk/base.py:66-83 | a call runs its operation if and only if no earlier success is still cached: failures never are, successes always are |

## Left out

- Flask routes, schemas, middleware and the rest of the command line: plumbing. The admin route's own disable does not go through `disable_plugin` and its dependents check.
- Alembic migrations, SQLAlchemy sessions, locking and version counters: repositories are maps, and every operation completes.
- Module scanning and instantiation in `discover`, and subclass overrides of `initialize`: discovery starts from plugin definitions.
- Runtime handler and category wiring, lifecycle events and log lines: they do not feed back into the modelled state.
- The other store of plugin configuration, the seeding of the manifest from its template, and its `installedAt` and `source` fields; an absent file is an empty manifest.
- Version semantics (PEP 440, section "Version specifiers"): whether a range is valid and contains a version are fixed predicates, and how a range is shown is a fixed function.
- Environment check, licence answer and the outcome of the enable and disable hooks: fixed per plugin, as arguments.
- The in-place fallback of the store's write, and updates lost between two concurrent saves: `StoreProtocol` covers the replace path for one file.
- A crash between saving a purchase and crediting its tokens, and exceptions raised by `can_handle_line_item`.
- `is_payable` and the authorised, failed and cancelled marks of an invoice: they would add easy members only.
- The authorised-payment, failure and refund event handlers, invoice repositories and the notifications on the event bus; the capture handler publishes `invoice.paid` again on a replay, so idempotence is about stored state.
- Plugin line-item handlers answer freely but are taken not to touch purchases or balances of their own accord; movement hooks are a predicate on movements.
- Float casts, Decimal's 28-digit context and the `tax_rate` display string: amounts are exact reals until quantized. Currency theorems are for positive rates; a zero rate is the error outcome.
- Redis expiry as time (an entry can be evicted at any step instead), JSON encoding of cached responses (a round trip is the identity) and key hashing.
- Listeners that change the dispatcher's lists while an event is being dispatched.
- Language-model adapters, permissions, payment-method filters, tags and custom fields: they would add easy members only.
