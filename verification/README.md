# Helvilette: a verified model of the control plane, the agent and what feeds them

Helvilette delivers Ansible playbooks by pulling. A control plane, Othela, scans a directory of playbooks whose
`helvilette.yml` manifests say which node labels they are for. Agents register their labels, poll for a job, run it
and report. This project models that system in Dafny and proves what it promises, over every input and every run.

`dafny verify dfyconfig.toml` verifies all of it.

| file | what it holds |
|---|---|
| `Manifests.dfy`, `Playbooks.dfy` | validation, selection of node groups, directory scan, the loader's index |
| `Dispatch.dfy`, `Othela.dfy` | how a sync request is answered; the server object and its handlers |
| `Linearizability.dfy` | sync requests interleaved section by section with everything else |
| `Agent.dfy`, `Protocol.dfy`, `Tightness.dfy` | the agent's job loop; Othela and all agents as one step system; its exact bound |
| `Storage.dfy` | the abstract store and its in-memory and SQLite adapters |
| `LabelText.dfy`, `Urls.dfy`, `AgentConfig.dfy`, `ConfigPrecedence.dfy`, `Rendering.dfy` | agent configuration, from its four sources to the printed block |
| `EventPump.dfy` | the bounded channel of systemd events |
| `Basics.dfy`, `Types.dfy` | shared vocabulary |

## Main results

* **Linearizability.** `handleSync` takes three separate locks. Whatever runs between them, each reply is the reply of
  one atomic sync at one of the request's own three sections, and it is known which one. A reply need not be current at
  the moment it is decided. A single reply is current exactly when no manifest exists or the labels read and the labels
  stored by then bring the same job; all replies of all runs are current exactly when every selector is empty, which for
  scanned playbooks means that none has a manifest.
* **Exactly bounded success.** Over whole runs with crashes, lost requests and lost replies, a node's successful
  executions never exceed its process starts when some playbook has a manifest, and its starts plus the changes of the
  fallback job otherwise. Both bounds are reached, for every number of starts and changes.
* **Dispatch.** Every request has one right answer, said over playbooks, groups and the fields of the job, and the
  handler gives it. The list that is searched holds every playbook directory once, in directory order.
* **Reports.** What is stored from a node is, in order and in every field, one report for each execution whose request
  was handled, so all of them exactly when each is handled before its process moves on. Every execution was dispatched
  earlier, by a poll of that very process, while it was registered under its own labels.
* **Dead groups.** A node group is dispatched to some label set exactly when no earlier non-empty selector is literally
  contained in its own. Job IDs identify jobs exactly when such groups that share an ID ask for the same job. Manifests
  that pass validation can hold a group that is never dispatched, and can make two jobs share an ID.
* **Two adapters, one store.** Over every sequence of operations both adapters answer as one abstract store does, except
  that SQLite lists empty task logs as `{}`; they agree exactly when no listing follows a save with empty logs. Reopening
  the database is invisible.
* **Configuration.** The sequential code of `LoadConfig` is an overlay of four layers, also said over flags, file,
  variables and literal defaults; each value comes from the highest source that usably sets it, and the provenance map
  names exactly that source, for exactly the resolved fields. The printed block is determined by the values and those
  sources, and shows every resolved field with its source.
* **Text forms.** Parsing labels is a homomorphism, and a label map survives writing and parsing exactly when it is
  expressible. URL normalisation is idempotent, and the exact inputs are known on which a trailing slash matters.
* **Event pump.** Conservation and order at every step; nothing is dropped exactly when an unbounded channel would never
  hold more than 100, and then the two behave alike.

## How the model reads the source

* A run is any list of events. An event that is impossible in the current state changes nothing, so every real run is
  among the runs considered. `Protocol` lets every process start bring other labels, crash anywhere, and lose any
  request or reply; a request that is handled late is excluded by the assumptions below.
* Assumptions of `Protocol`: one live process per node ID; a request is handled at most once, and before its client
  moves on or never; no other client registers or reports under a node's ID; no database errors; one Othela process, over
  any initial contents of its stores.
  `Linearizability` needs none of the assumptions about clients.
* `Linearizability` and `Protocol` use the same function `SyncStep` for the three locked sections that the methods of
  `Othela.Server` are proved against.
* `Protocol` stores reports as they were sent; what SQLite makes of empty task logs is said in `Storage`.
* Map iteration order is nondeterministic wherever Go ranges over a map.
* A missing label reads as the empty string, as in Go, so a selector entry with an empty value accepts nodes
  without the label.
* Strings are sequences of Unicode characters. `FormatConfig` measures widths in bytes and pads in characters; both
  are modelled, and the columns line up in characters.
* A directory is the list of its entries in the order `os.ReadDir` gives them.
* SHA-256, `time.ParseDuration`, the rendering of durations, the clock, the host name, the environment and file contents
  are parameters. Of the hash only the digest length is known.
* Job IDs are compared as text. The content of the two built-in playbooks is a parameter of the constructor.

Where comments and code differ, the code is followed: `UnitEvent.EventType` is documented as possibly "reloaded"
(`pkg/systemd/types.go:18`) while the code yields "reloading"; and a manifest that passes `Validate` can still hold a
group that no node ever receives (`pkg/manifest/validation.go:17-20` against `Dispatch.ValidManifestMayHoldDeadGroup`).

## Model

| member | source | states |
|---|---|---|
| Linearizability.SyncIsLinearizable | cmd/othela/server.go:274-350 | in every interleaving of sync requests, registrations and job changes, a reply equals an atomic sync at one of the request's own sections: IsRegistered for 403, GetLabels when a manifest exists, the read-locked section otherwise |
| Linearizability.AdvanceExplained | cmd/othela/server.go:282-292 | each of the three sections keeps the request explained by an instant inside it |
| Linearizability.NodesOnlyGrow | pkg/storage/memory.go:24-43 | nodes are never removed, whatever clients do; linearizability rests on it |
| Linearizability.EventEffect | cmd/othela/server.go:235-264 | a registration changes one node, SetCurrentJob the fallback job, and a section of a request that request, and nothing else |
| Linearizability.CurrentIffSameJob | cmd/othela/server.go:287-337 | in every interleaving, the reply decided in the read-locked section equals an atomic sync just then iff no manifest exists or the labels read before and the labels stored now bring the same manifest job |
| Linearizability.AlwaysCurrentIffNothingSelects | cmd/othela/server.go:282-337 | every reply of every run is current at its decision iff every group's selector is empty |
| Linearizability.ScannedAlwaysCurrentIff | cmd/othela/server.go:282-337 | with scanned playbooks, every reply of every run is current iff no playbook has a manifest |
| Linearizability.ReplyMayBeOutdated | cmd/othela/server.go:287-300 | whenever two label sets bring different manifest jobs, relabelling a node between GetLabels and the decision yields a reply that is not current |
| Linearizability.ValidManifestMayOutdateReply | cmd/othela/server.go:287-300 | a concrete validated manifest and a run of six events with such a reply |
| Protocol.SuccessesAreBounded | cmd/agent/main.go:531-570 | over any run, successes of a node are at most its starts when a manifest exists, else at most starts plus changes of the fallback job's ID, which are at most the SetCurrentJob calls |
| Tightness.BoundIsReached | cmd/agent/main.go:573-623 | for all k > 0 (and all m without manifests) some run has k starts, m job changes and exactly k + m successes, which leave k + m stored reports |
| Protocol.MoveWithinBudget | cmd/agent/main.go:538-554 | no move of an agent raises successes plus remaining potential beyond starts plus allowance |
| Protocol.JobChangeWithinBudget | cmd/othela/server.go:235-239 | a change of the dispatched job's ID is worth at most one more success, any other change nothing |
| Protocol.RunsFailUntilOneSuccess | cmd/agent/main.go:538-554 | with a manifest, each process executes one single job: failures, then at most one success |
| Protocol.RunsAreSeparated | cmd/agent/main.go:538-554 | in every run of every process a succeeded job is executed again only after a success of another job in between |
| Protocol.StoredReportsFollowExecutions | cmd/agent/main.go:556-569 | what is stored from a node since the beginning is, in the order of execution, one report with the ID, job, status and logs of each execution whose request was handled: none is lost once handled, duplicated, reordered or invented; earlier contents of the store stay |
| Protocol.AllStoredIffAllHandled | cmd/agent/main.go:556-569 | all executions of a node are reported and stored, in order and in every field, iff each request is handled before its process moves on |
| Protocol.ReportsChangeIff | cmd/othela/server.go:353-372 | a step stores a report iff it handles the request of a node that is reporting, and then appends that report |
| Protocol.ProcessStep | cmd/agent/main.go:531-570 | the remembered job is passed over; any other is executed whatever comes of it, its report is pending with node, job, status and logs, and lastJobID moves on success |
| Protocol.ExecutionsWereDispatched | cmd/agent/main.go:609-618 | every execution is completed by one event, and before it the deciding section of a poll of that very process, registered then under its own labels, had the executed job as its atomic answer |
| Protocol.ExecutionHappened | cmd/agent/main.go:531-570 | every recorded execution was completed, at its place in its run, by a process that held that job |
| Protocol.RegisteredUnderOwnLabels | cmd/agent/main.go:329-371 | a process past registration is stored under exactly the labels it was started with, in every reachable state |
| Protocol.RegistrationIsIdempotent | cmd/agent/main.go:343-369 | when all starts of a node use the same labels, retries, lost replies and crashes never leave other labels under its ID |
| Protocol.NodesOnlyGrow | cmd/othela/server.go:257-271 | along any run the set of registered nodes only grows |
| Agent.DisciplinedIffSeparated | cmd/agent/main.go:538-554 | the comparison with lastJobID holds throughout a history exactly when successes of a job are separated by another success and no unnamed job runs before the first success |
| Agent.UniformRunsUntilSuccess | cmd/agent/main.go:551-554 | under one constant job a history is failures and then at most one success |
| Agent.LastSuccessPosition | cmd/agent/main.go:309-314 | lastJobID after a history is the ID of its last success, or empty when there is none |
| Agent.AgentProcess.constructor | cmd/agent/main.go:321-326 | a new process remembers no job |
| Agent.AgentProcess.ProcessJob | cmd/agent/main.go:531-570 | executes exactly the jobs that differ from lastJobID; the report has the node ID, the job ID, the status and the output; lastJobID moves on success only; the discipline is kept |
| Agent.AgentProcess.Run | cmd/agent/main.go:608-622 | over any polls and outcomes: every polled job is executed unless it is the one remembered at that moment, each execution is reported in order and in every field, successes are separated, and if all polls bring one job there are failures and then at most one success |
| Othela.Server.HandleSync | cmd/othela/server.go:274-350 | undisturbed, the handler gives the one right answer of Dispatch.RightAnswer, job field by job field, which is the atomic sync |
| Othela.Server.CheckRegistered | cmd/othela/server.go:282-285 | the first locked section is the first step of SyncStep |
| Othela.Server.ReadLabels | cmd/othela/server.go:287 | the second locked section is the second step of SyncStep |
| Othela.Server.DecideJob | cmd/othela/server.go:289-349 | the read-locked section, with its two loops, gives the one right reply for the labels, which is Decide |
| Othela.Server.MatchPlaybooks | cmd/othela/server.go:292-321 | the nested loops find the job that the first matching group of the first matching playbook asks for, in every field, or nothing when no group selects |
| Othela.Server.WithConfig | cmd/othela/server.go:146-209 | over any given stores, in memory or SQLite; missing ones are empty memory stores; playbooks are those of one scan and the fallback job is fully determined |
| Othela.StartFrom | cmd/othela/server.go:166-205 | one scan, then the first playbook's content or the built-in job |
| Othela.Server.WithJob | cmd/othela/server.go:123-133 | a server for one job has no playbooks and empty stores |
| Othela.FallbackJob | cmd/othela/server.go:172-204 | a server with a loader never has an empty fallback ID; it is named after the first playbook or the clock |
| Othela.FallbackJobIs | cmd/othela/server.go:172-204 | the fallback job is in every field that of the first playbook when its file can be read, and otherwise the built-in job named after the clock; with colliding IDs the file is that of the last playbook of the ID |
| Othela.Server.SetCurrentJob | cmd/othela/server.go:235-239 | replaces the fallback job and nothing else |
| Othela.Server.HandleRegisterNode | cmd/othela/server.go:257-271 | stores the labels under the ID, keeps all reports and repeats the registration; an undecodable body changes nothing |
| Othela.Server.HandleReport | cmd/othela/server.go:353-372 | appends the report in every field, only empty logs becoming {} in SQLite, and keeps all nodes; an undecodable body changes nothing |
| Othela.Server.HandlePlaybooks | cmd/othela/server.go:425-441 | rescans the loader without touching what is dispatched, and answers 503, 500 or the list |
| Dispatch.OneRightAnswer | cmd/othela/server.go:274-350 | a request has one right answer, said over playbooks and groups alone, and the atomic sync gives it: 403 iff unknown; with a manifest the job of the first match or no content; without, the named fallback job or no content |
| Dispatch.OneRightReply | cmd/othela/server.go:292-347 | the same for the labels of a registered node and the read-locked section |
| Dispatch.ManifestJobIff | cmd/othela/server.go:295-321 | a job is matched iff it has the ID, repository (or test URL, or the literal default), branch, playbook path and variables of the first selecting group of the first playbook with one |
| Dispatch.TakePlaybook | cmd/othela/server.go:300-320 | the head of the first non-empty match list belongs to the first selecting candidate over all playbooks |
| Dispatch.SyncAnswer | cmd/othela/server.go:282-347 | 403 iff unregistered; a job iff it is that of the first selecting candidate, or the named fallback job when no manifest exists; otherwise no content |
| Dispatch.ManifestJobIsFirst | cmd/othela/server.go:295-321 | the matched job is that of the first playbook with a match and its first matching group, and there is none iff nothing selects |
| Dispatch.DecideModes | cmd/othela/server.go:323-337 | with a manifest the fallback job plays no part, without one the labels play no part, and no handed-out job is unnamed |
| Dispatch.LiveIffUnshadowed | pkg/manifest/parser.go:35-58 | a group is dispatched for some labels iff no earlier non-empty selector is literally contained in its own |
| Dispatch.RejectingLabels | pkg/manifest/parser.go:47-58 | constructs, for every unshadowed group, labels that reach it first |
| Dispatch.LabelsExtending | pkg/manifest/parser.go:47-58 | any labels extend to ones that no selector picks but those contained in the given labels |
| Dispatch.LabelsMatterIffSelected | cmd/othela/server.go:292-321 | all label sets bring the same manifest job iff every selector is empty |
| Dispatch.ValidManifestsSelect | pkg/manifest/validation.go:76-84 | with validated manifests, every selector is empty iff there is no manifest |
| Dispatch.ValidManifestMayHoldDeadGroup | pkg/manifest/validation.go:17-20 | a concrete manifest passes validation although its second group is dispatched to no labels |
| Dispatch.JobIDDecodes | cmd/othela/server.go:313 | with IDs of one length a job ID determines playbook ID and group name, whatever the name contains |
| Dispatch.FallbackIDDiffers | cmd/othela/server.go:180 | a fallback ID never equals a manifest job's ID |
| Dispatch.IDsIdentifyJobsIff | cmd/othela/server.go:312-318 | equal job IDs mean equal jobs exactly when unshadowed groups that share an ID ask for the same job |
| Dispatch.RepeatedNameConfusesJobs | pkg/manifest/validation.go:61-71 | two unshadowed groups of one name and different variables make two jobs share an ID |
| Dispatch.ValidManifestMayRepeatName | pkg/manifest/validation.go:76-84 | such a manifest passes validation |
| Dispatch.ScannedJobsAreComplete | cmd/othela/server.go:304-318 | jobs from scanned playbooks have spec.repo and spec.playbook of a validated manifest whose group selects the labels, both non-empty |
| Dispatch.TestURLIsUnused | cmd/othela/server.go:304-310 | for scanned playbooks HELV_TEST_REPO_URL has no influence on manifest jobs |
| Dispatch.ScannedJobIDs | pkg/playbook/types.go:24-27 | for groups of listed playbooks, job IDs are equal iff the digest prefixes of the playbooks' directory names and the group names are |
| Manifests.ValidateAcceptsDispatchable | pkg/manifest/validation.go:25-84 | validation passes exactly the manifests with all required parts |
| Manifests.ValidateGroupsFrom | pkg/manifest/validation.go:61-71 | the group error names the first bad group and its first defect; none means all are usable |
| Manifests.ValidateReportsFirst | pkg/manifest/validation.go:25-84 | validation reports a fault iff the manifest has it and no fault that is checked earlier |
| Manifests.ParseFile | pkg/manifest/parser.go:16-32 | only a decoded, dispatchable manifest is returned; a missing, unreadable, undecodable or rejected file has its own error, the last with a fault the manifest has |
| Manifests.IsSubset | pkg/manifest/parser.go:47-58 | in any iteration order: true iff the selector is non-empty and every entry equals the label read with default "" |
| Manifests.SelectsIff | pkg/manifest/parser.go:47-58 | a selector entry accepts a missing label iff its value is empty, and a present label iff the values are equal; an empty selector accepts nothing |
| Manifests.MatchNodeGroups | pkg/manifest/parser.go:35-45 | the loop collects the selecting groups in manifest order |
| Manifests.MatchingIsSelection | pkg/manifest/parser.go:38-42 | the matches are exactly the selecting groups; a usable group matches its own selector |
| Manifests.MatchingInOrder | pkg/manifest/parser.go:35-45 | the matches are the groups at exactly the selecting positions, in increasing order |
| Manifests.MatchingHead | cmd/othela/server.go:300-302 | element 0 of the matches is the first selecting group |
| Playbooks.GenerateID | pkg/playbook/types.go:24-27 | an ID has 16 characters and no dash |
| Playbooks.IDSpellsDigest | pkg/playbook/types.go:24-27 | an ID is the first eight digest bytes in lower-case hexadecimal digits, the high digit first |
| Playbooks.SameIDIffSamePrefix | pkg/playbook/types.go:24-27 | two directories share an ID iff the first eight digest bytes agree |
| Playbooks.Discovered | pkg/playbook/loader.go:69-130 | listed playbooks carry the ID of their name, come from an entry, and have only dispatchable manifests |
| Playbooks.DiscoveredIff | pkg/playbook/loader.go:83-130 | exactly the visible directories with a playbook.yml are listed, with a manifest iff the one on disk is well-formed and dispatchable |
| Playbooks.DiscoveredInOrder | pkg/playbook/loader.go:69-130 | each playbook directory is listed exactly once, in directory order, under its name, ID, path, time and manifest |
| Playbooks.Loader.Scan | pkg/playbook/loader.go:60-81 | returns every playbook directory once, in directory order, and replaces the index by that list's, or empties it when the directory cannot be read |
| Playbooks.IndexAgreesWithList | pkg/playbook/loader.go:70-77 | the index holds exactly the listed IDs, each with its last playbook |
| Playbooks.Loader.Get | pkg/playbook/loader.go:133-139 | answers from the index |
| Playbooks.Loader.Load | pkg/playbook/loader.go:142-154 | reads the file of the indexed playbook, with both error cases |
| Playbooks.Loader.GetByName | pkg/playbook/loader.go:157-164 | in any iteration order: an indexed playbook of that name, the one under the ID of the name; an error iff none has the name |
| Playbooks.EveryNameFoundIffNoCollision | pkg/playbook/loader.go:157-164 | every listed playbook is found by its name iff no two listed IDs collide |
| Playbooks.NewLoader | pkg/playbook/loader.go:29-56 | a loader is made exactly for a directory, with an empty index; each other base path has its error |
| Storage.RunMemory | pkg/storage/memory.go:24-74 | the memory adapters answer every operation sequence as the abstract store |
| Storage.RunSQLite | pkg/storage/sqlite.go:77-168 | SQLite answers every operation sequence alike, across any closing and reopening, but for empty logs listed as {}; it answers exactly as the abstract store, and so as the memory adapters, iff no List comes after a Save with empty logs |
| Storage.LabelsAreLastRegistered | pkg/storage/storage.go:16-26 | a node is registered iff some operation registered it, with the labels of the last one |
| Storage.ReportsAreSavedInOrder | pkg/storage/storage.go:35-41 | the store lists every saved report once, oldest first |
| Storage.MemoryNodeStore.Register | pkg/storage/memory.go:24-29 | sets the labels of one node |
| Storage.MemoryNodeStore.GetLabels | pkg/storage/memory.go:31-36 | the stored labels and whether there are any |
| Storage.MemoryNodeStore.IsRegistered | pkg/storage/memory.go:38-43 | membership |
| Storage.MemoryReportStore.Save | pkg/storage/memory.go:60-65 | appends |
| Storage.MemoryReportStore.List | pkg/storage/memory.go:67-74 | a fresh copy of all reports |
| Storage.SQLiteStore.constructor | pkg/storage/sqlite.go:49-67 | creates missing tables and keeps existing ones with their id sequence |
| Storage.SQLiteStore.Register | pkg/storage/sqlite.go:77-95 | the upsert acts as the abstract registration and keeps the first registration time |
| Storage.SQLiteStore.GetLabels | pkg/storage/sqlite.go:99-111 | answers from the table's contents |
| Storage.SQLiteStore.IsRegistered | pkg/storage/sqlite.go:114-118 | answers from the table's contents |
| Storage.SQLiteStore.Save | pkg/storage/sqlite.go:123-138 | the row with the next id comes last in id order: one report is appended with the same node, job and status, and the same logs unless they are empty, which become {} |
| Storage.SQLiteStore.List | pkg/storage/sqlite.go:141-168 | the reports by ascending id, which is insertion order |
| Storage.PerformSQLite | pkg/storage/sqlite.go:77-168 | one operation on the tables simulates one on the abstract store |
| Storage.NodeStore.Register | pkg/storage/storage.go:16-26 | with either implementation one node's labels are set, and a report store in the same database keeps its reports |
| Storage.NodeStore.GetLabels | pkg/storage/storage.go:16-26 | with either implementation the stored labels and whether there are any |
| Storage.NodeStore.IsRegistered | pkg/storage/storage.go:16-26 | with either implementation membership |
| Storage.ReportStore.Save | pkg/storage/storage.go:35-41 | with either implementation the report is appended in every field, only SQLite turning empty logs into {}, and a node store in the same database keeps its nodes |
| LabelText.ParseLabels | cmd/agent/main.go:83-92 | the loop yields the overlay of the pieces' labels |
| LabelText.PieceSays | cmd/agent/main.go:86-89 | a piece without an equals sign contributes nothing, any other its trimmed sides around the first one |
| LabelText.LabelIsLastPiece | cmd/agent/main.go:85-90 | a label has the value of the last piece that names its key |
| LabelText.LabelHasPiece | cmd/agent/main.go:85-90 | every label is named by some piece |
| LabelText.SplitJoins | cmd/agent/main.go:85 | the pieces, with commas between them, are the text |
| LabelText.ParsingIsHomomorphic | cmd/agent/main.go:83-92 | parsing s, a comma and t is the right-biased overlay of parsing s and t |
| LabelText.RoundTripIffExpressible | cmd/agent/main.go:83-92 | a label map is recovered from its text, in any key order, iff keys and values are trimmed and comma-free and keys have no equals sign |
| LabelText.ParsedIsExpressible | cmd/agent/main.go:86-89 | every parse result is such a map |
| LabelText.TrimSpaceFacts | cmd/agent/main.go:88 | trimming is sound and leaves trimmed text alone |
| LabelText.TrimSpaceCuts | cmd/agent/main.go:88 | trimming cuts white space off both ends and nothing else |
| Urls.NormalizedShape | cmd/agent/main.go:219-228 | every normalised URL starts with http and ends with /api/v1 |
| Urls.WrittenURLIsKept | cmd/agent/main.go:219-228 | a URL with a scheme is kept as written, less one final slash, and the path is appended iff it is not there already |
| Urls.UnchangedIffNormal | cmd/agent/main.go:219-228 | the URLs left unchanged are exactly those that start with http and end with /api/v1 |
| Urls.SchemeIsImplied | cmd/agent/main.go:220-222 | a URL without scheme is used as if http:// had been written |
| Urls.NormalizeIdempotent | cmd/agent/main.go:219-228 | normalising twice is normalising once |
| Urls.TrailingSlashIgnoredIff | cmd/agent/main.go:223-225 | a trailing slash makes no difference iff the URL is non-empty and does not already end in one |
| ConfigPrecedence.LoadConfig | cmd/agent/main.go:96-231 | over the inputs themselves: fails exactly on an unreadable or undecodable file or its malformed duration, with that error and what was chosen before it; otherwise each field is flag over file over variable over literal default, its provenance the literal name of that source, each label that of the last map with the key, and the URL is normalised |
| ConfigPrecedence.EnvironmentChosen | cmd/agent/main.go:112-137 | the environment block makes each usable variable the chosen value, under its name |
| ConfigPrecedence.FileChosen | cmd/agent/main.go:164-189 | the file block makes each usable setting the chosen value, above the environment |
| ConfigPrecedence.FlagsChosen | cmd/agent/main.go:192-217 | the flag block makes each usable flag the chosen value, above the file |
| ConfigPrecedence.ProvenanceNames | cmd/agent/main.go:105-217 | the provenance map has exactly the four field names and labels.k for each label k |
| AgentConfig.LoadAmbient | cmd/agent/main.go:97-137 | defaults and environment are the first two layers |
| AgentConfig.ApplyConfigFile | cmd/agent/main.go:139-190 | the file, when given, is the third layer; with a fault, what of it was applied |
| AgentConfig.ApplyFile | cmd/agent/main.go:164-189 | a decoded file applies as one layer; only its duration can fail, which leaves its labels out |
| AgentConfig.ApplyText | cmd/agent/main.go:113-137 | environment variables and flags apply as one layer, each to its own field, malformed durations skipped |
| AgentConfig.ApplyFlags | cmd/agent/main.go:192-228 | flags are the fourth layer, then the URL is normalised |
| AgentConfig.OverlayLabels | cmd/agent/main.go:133-136 | in any iteration order labels and provenance are overlaid by the layer |
| AgentConfig.Override | cmd/agent/main.go:113-116 | a set value and its source are recorded together |
| AgentConfig.LabelFieldsAreTheirOwn | cmd/agent/main.go:51-55 | label entries of the provenance map never collide with each other or with the four fields |
| ConfigPrecedence.HighestSourceWins | cmd/agent/main.go:94-217 | every field and every label has the value, and the provenance, of the highest source that usably sets it |
| ConfigPrecedence.ResolvedIffSet | cmd/agent/main.go:133-136 | exactly the resolved fields are set by some source |
| ConfigPrecedence.ProvenanceIsExact | cmd/agent/main.go:105-217 | the provenance map has an entry for each resolved field and no other |
| ConfigPrecedence.ProvenanceIsNamed | cmd/agent/main.go:47-49 | each entry of a resolved field is a non-empty source name |
| Rendering.ConfigFields | cmd/agent/main.go:236-254 | in any iteration order: the four fields, then all labels in strictly increasing key order |
| Rendering.RowsAre | cmd/agent/main.go:236-254 | the rows in full: the four literal names with their values, then labels.k with its value for every label key in increasing order |
| Rendering.RenderingIsCanonical | cmd/agent/main.go:233-254 | a configuration has exactly one such rendering |
| Rendering.SortStrings | cmd/agent/main.go:248 | distinct keys come out strictly increasing, none lost or added |
| Rendering.LessIff | cmd/agent/main.go:248 | texts are ordered by the first character in which they differ, a proper prefix first |
| Rendering.FormatConfig | cmd/agent/main.go:258-280 | in any iteration order: prints the canonical rows, one line each, at the widths of the widest name and value |
| Rendering.Widths | cmd/agent/main.go:261-269 | the loop finds the greatest byte lengths |
| Rendering.WidthsAreLeast | cmd/agent/main.go:261-269 | the widths cover every name and value and are reached by one |
| Rendering.ByteLenIs | cmd/agent/main.go:263 | lengths are counted in bytes of UTF-8, one to four for a character |
| Rendering.PrintLines | cmd/agent/main.go:271-279 | prints every row with its recorded source, or default when none is recorded |
| Rendering.ColumnsLineUp | cmd/agent/main.go:277 | on every line the equals sign, the value and the source start in the same column |
| Rendering.TextIsCanonical | cmd/agent/main.go:258-280 | two printed texts of a configuration are equal whenever the same sources are reported for its resolved fields |
| Rendering.TextShowsField | cmd/agent/main.go:271-279 | after a successful load the printed text has, for every resolved field, the line with its name, value and recorded source at the common columns |
| Rendering.DefaultIsNeverSubstituted | cmd/agent/main.go:273-276 | after a successful load the printed source is always the recorded one |
| EventPump.PumpConserves | pkg/systemd/watcher.go:99-114 | published = received + queued + dropped, as counts and as multisets; at most 100 queued; received then queued is an order-preserving subsequence of published |
| EventPump.DropsIffFull | pkg/systemd/watcher.go:109-113 | an event is dropped iff it is published on an open channel holding exactly 100 |
| EventPump.LosslessIffKeepsUp | pkg/systemd/watcher.go:37 | nothing is dropped iff an unbounded channel would never hold more than 100, and then the two coincide |
| EventPump.EventSays | pkg/systemd/watcher.go:116-150 | an event carries its unit's name and status, and each event type is given for exactly its states |
| EventPump.EventChannel.TrySend | pkg/systemd/watcher.go:109-113 | a non-blocking send on an open channel is the publish step |
| EventPump.EventChannel.TryReceive | cmd/agent/main.go:631-634 | a receive takes the oldest queued event; an empty channel has ended iff it is closed |
| EventPump.EventChannel.HandleSystemdEvents | cmd/agent/main.go:625-643 | takes the queued events in order, changes nothing else, and ends iff the channel is closed and all is taken |
| EventPump.Watcher.HandleChanges | pkg/systemd/watcher.go:90-97 | publishes one event per unit with a status, in some order, with the consumer running in between on any schedule; conservation is kept |
| EventPump.Watcher.PublishEvent | pkg/systemd/watcher.go:99-114 | logs the event as kept or dropped according to the room left |
| EventPump.Watcher.ProcessEvents | pkg/systemd/watcher.go:72-88 | under any schedule of the consumer: publishes the batches before the first cancellation in order, closes the channel iff cancelled, sends nothing afterwards |
| EventPump.Watcher.IsUnitWatched | pkg/systemd/watcher.go:65-70 | an empty list watches every unit |
| EventPump.Watcher.constructor | pkg/systemd/watcher.go:21-32 | the watch list holds exactly the given units |

## Left out

- Othela.Server: a store given to it is one of the two adapters; further implementations of the storage interfaces are not modelled.
- EventPump.EventChannel.HandleSystemdEvents: a receive that would wait is taken as a turn that brings nothing; the cancellation of the consumer is the end of its turns.
- Playbooks.PlaybookPath: path cleaning is reduced to joining under an absolute, cleaned base directory.
- Restarts of Othela: one server process is modelled, over any initial store contents; a restart may bring other playbooks.
- Requests of a past process handled after its successor has registered other labels: excluded by assumption.
- Liveness: an agent that gets a 403 after registration keeps polling and never registers again, so no eventual execution is claimed.
- Execution of a playbook (`ExecutePlaybook`): a nondeterministic status and output; a crash during it is a crash before its end.
- Git checkout (`pkg/git/clone.go`): library behaviour.
- JSON, YAML, SQL and HTTP encodings: labels, jobs and reports are assumed to survive them; 204 (section 15.3.5 of RFC 9110) is "no content".
- Database errors, and aliasing of label maps inside the memory store, which is handed maps nobody else keeps.
- Concurrent rescans of one loader: scans are sequential here.
- Time stamps of unit events, `isStateChanged` and the D-Bus subscription that applies it.
- Logging, command-line wiring, health endpoints, shutdown.
