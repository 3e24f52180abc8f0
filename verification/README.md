# mHost, verified

A Dafny model of the decision logic of mHost, a desktop program that manages `/etc/hosts` profiles
and blocks advertising domains in a local DNS server. The model follows the code: what the program
does step by step on shared or stored state is a class or a method with loops, what it computes is a
function, and what runs concurrently is a system of atomic steps. `dafny verify dfyconfig.toml`
checks everything.

## What is modelled

**Ad-block rules.**
`AdBlockModel` holds the records. `Fingerprint` is the byte stream of the reload fingerprint, down to
UTF-8 and 16-byte identifiers. `RuleInputs` says what a full rebuild installs. `ReloadGate` is the gate
object with its parse cache and label, `ReloadSteps` any number of reloads and reports interleaved
access by access. `Refresh` is one conditional fetch, `RefreshSteps` fetches of any sources interleaved
with every command that bypasses the per-source gates, and `FetchBatch` the permits, gates and state
lock of overlapping batches. `Domains`, `Blocklist` and `CacheReload` are the text side: validator,
readers, canonical cache text. `Trie` and `Engine` are the matcher, `Overlap` the report on sources that
list the same domains, `Verdicts` leads from cache files and whitelist to the answer a client gets, and
`AdBlockCommands` holds the commands on the state, `CommandEffects` what each does to the answers.

**Hosts profiles.**
`Profiles` is the store, `Merge` and `Plan` turn profiles into a plan, `Apply` previews, guards and
writes it, `HostsText` and `HostsFile` are the managed block of the hosts text, how it is read, replaced
and read again, and `ProfileCommands` is everything else that changes stored profiles.

**Text in the editor.**
`Search`, `Segments`, `Escape`, `HighlightHosts` and `Fuzzy`.

`Base`, `Sorting`, `Text` and `Spacing` are shared vocabulary. Lemmas switch automatic induction off: every
proof by induction is written out.

### Assumptions

- The two 64-bit hashes do not collide on the inputs of one run (`CollisionFree`, `NoCollisions`). The
  code takes an equal hash for an equal input; everything about the gate rests on that, and only that.
- Source ids are distinct (fresh UUIDs). Lengths hashed as machine words fit 64 bits.
- A server sends the version it currently publishes. Honesty about 304 (the precondition check of
  section 6 of RFC 7232) and strong etags are assumed only by `EtagVouches` and `DateVouchesIff`.
- Server and client share one clock that counts whole seconds and never goes back, as the dates in
  requests do; any number of accesses and publications may fall into one second.
- The parsing and printing of addresses, lower-casing beyond ASCII results and the case folding of
  regular expressions are parameters. `HostsFile` assumes that a printed address is one word without a
  comment sign and is parsed as the same address (`PrintsIps`).

### Where the code falls short of what it says

Each is a counterexample together with the exact condition under which the code keeps its promise.

- DNS names are the same in any case (section 2.3.3 of RFC 1035). Lists and whitelist are in lower case,
  queries are matched as the client spells them, so a blocked name passes when spelled with a capital:
  `CapitalsPass`, `CaseMattersIff`.
- A domains-format list may contain entries made of digits and dots only. The fetch counts and caches
  them, the next reload rejects them: `NumericDomainIsLost`, `ReloadDropsNumericDomains`.
- A source without an etag revalidates by date. The date is taken when the outcome is recorded, not
  when the body was sent, and counts seconds. A list changed in between, or later in the same second,
  is not fetched as long as the server answers 304: `StaleRevalidation`, `StaleWithinSecond`,
  `DateVouchesIff`.
- The `effective` label of the drill-down is documented as what `check()` will return, but it tests exact
  membership where the engine also matches parent domains, and ignores the master switch:
  `ParentRuleIsOverlooked`, `EngineAgreesIff`.
- The engine's documentation says that with the master switch on exactly one counter advances per
  query; without block rules and without a whitelist hit none does, as a comment inside the function
  admits: `NoCounterAdvances`, `OneCounterIff`.
- `compute_disabled_ids_logic` is documented to mirror `disable_other_profiles`; for a DNS target it
  reports nothing although every enabled Hosts profile would be disabled (no command takes that
  path): `DnsTargetDisablesSilently`, `DisabledIdsExactIff`.
- Editing an enabled DNS profile into a Hosts profile can leave two Hosts profiles enabled:
  `ModeFlipBreaksExclusivity`, `StepExclusiveIff`, `RunExclusiveIff`.
- Names are only compared with those of Hosts profiles, so a "fresh" name may be that of a DNS profile:
  `CopyTakesDnsName`, `FreshNameIff`.
- After an apply a preview should show nothing left to do. With stray or repeated markers no block is
  found in what was just written and every apply appends another one; and the validation of profiles
  lets in domains that the hosts parser rejects, which are then added again and again:
  `StrayMarker`, `UnderscoreIsOneWord`, `SecondPlanIsEmptyIff`, `ApplyAgainIff`.
- The two readers of the markers are meant to find the same block. An end marker on the line before the
  start marker is a block to the one and none to the other: `ReadersAgreeIff`.

Dead code: the highlighter has a branch for the prefix of a disabled rule that is never taken, because
such a line is already a comment line.

## Model

| member | source | states |
|---|---|---|
| Fingerprint.StreamInjective | src-tauri/src/commands/adblock.rs:507-533 | the hashed byte stream can be read back in one way only: equal streams come from equal master switch, sorted entries and sorted whitelist |
| Fingerprint.TextPrefixFree | src-tauri/src/commands/adblock.rs:507-533 | a UTF-8 text closed by 0xFF is never a prefix of another, so concatenated texts do not run into each other |
| RuleInputs.KeyDeterminesRules | src-tauri/src/commands/adblock.rs:491-564 | equal fingerprint inputs install equal rule sets, whatever was read |
| RuleInputs.FingerprintDeterminesRules | src-tauri/src/commands/adblock.rs:507-564 | equal fingerprints mean equal rule sets, if neither hash collides on its inputs |
| RuleInputs.ReadingOrderIrrelevant | src-tauri/src/commands/adblock.rs:491-564 | permuting sources with distinct ids, or whitelist entries, changes neither fingerprint nor inputs nor rules |
| ReloadGate.LookupIsParse | src-tauri/src/commands/adblock.rs:394-401 | a cache hit is the parse of the content asked for |
| ReloadGate.LabelsTellReadingsApart | src-tauri/src/commands/adblock.rs:507-533 | without collisions two readings with one fingerprint have one rebuild |
| ReloadGate.MatchingLabelMeansCurrentRules | src-tauri/src/commands/adblock.rs:587-590 | a truthful label equal to the new fingerprint means the engine already holds the new rules |
| ReloadGate.DnsServer.ReloadAdBlockRules | src-tauri/crates/mhost-dns/src/server.rs:457-468 | switch and all three sets installed, response cache cleared once |
| ReloadGate.AdBlockReloadGate.CachedDomains | src-tauri/src/commands/adblock.rs:395-401 | a hit needs an entry under the same content hash, nothing is changed |
| ReloadGate.AdBlockReloadGate.StoreParsed | src-tauri/src/commands/adblock.rs:403-411 | the entry of that source is replaced, the others stay |
| ReloadGate.AdBlockReloadGate.RetainSources | src-tauri/src/commands/adblock.rs:415-417 | exactly the entries of other sources are dropped |
| ReloadGate.AdBlockReloadGate.LoadClassifyInputs | src-tauri/src/commands/adblock.rs:437-502 | the inputs equal a computation without cache, and the cache ends up with exactly the enabled sources |
| ReloadGate.AdBlockReloadGate.LoadEnabledSourceDomains | src-tauri/src/commands/adblock.rs:1280-1317 | every enabled source with its position and the parse of its cache file, whatever was cached |
| ReloadGate.AdBlockReloadGate.MergeInputs | src-tauri/src/commands/adblock.rs:539-564 | the loops compute the union of the domains per response; nothing with the master switch off |
| ReloadGate.AdBlockReloadGate.ClassifyAndReload | src-tauri/src/commands/adblock.rs:574-602 | reloads unless cancelled or the label matches; skipped or not, engine and label are those of a full rebuild; a skip clears no response cache |
| ReloadSteps.LabelTellsTheTruth | src-tauri/src/commands/adblock.rs:358-372 | in every interleaving, outside the critical section a recorded label names a reading whose rebuild the engine holds |
| ReloadSteps.SkipEqualsRebuild | src-tauri/src/commands/adblock.rs:574-590 | in every interleaving a skipped reload leaves what rebuilding from its own reading would install |
| ReloadSteps.ReloadEqualsRebuild | src-tauri/src/commands/adblock.rs:596-602 | in every interleaving a reload leaves the rebuild of its own reading and the label of it |
| ReloadSteps.ForcedReloadInstalls | src-tauri/src/commands/adblock.rs:574-602 | a forced reload ends in no other way than by installing rules |
| ReloadSteps.SkipsIff | src-tauri/src/commands/adblock.rs:574-590 | in every interleaving a reload that compares skips if and only if it is not forced and the label is the fingerprint of what it read |
| ReloadSteps.CancelChangesNothing | src-tauri/src/commands/adblock.rs:591-596 | the check for a cancellation changes neither engine nor label, and lets every forced reload pass |
| ReloadSteps.CacheIsUsed | src-tauri/src/commands/adblock.rs:394-417 | in every interleaving a text is parsed only if no parse under its hash is cached, the parse is stored, and a reload drops what belongs to no enabled source of its snapshot |
| ReloadSteps.ReadFromDisk | src-tauri/src/commands/adblock.rs:437-502 | in every interleaving, whatever a task has read for a source stood in the cache file of that enabled source at the step of the read, failed reads aside |
| ReloadSteps.ReadMaySucceed | src-tauri/src/commands/adblock.rs:437-502 | the read that returns the text of the file is possible whenever a task is about to read |
| ReloadSteps.LoadsIgnoreTheCache | src-tauri/src/commands/adblock.rs:437-502 | under arbitrary store, lookup and retain by others a load returns what it would on an empty gate |
| ReloadSteps.RunKeepsInvariant | src-tauri/src/commands/adblock.rs:358-417 | every reachable gate has sound entries, one lock holder and truthful intermediate states |
| ReloadSteps.SkipHappens | src-tauri/src/commands/adblock.rs:574-602 | a run in which a forced reload installs its rules and the next one skips, so the results above are about something |
| Domains.ValidatorIsGrammar | src-tauri/src/commands/adblock.rs:626-699 | the chain of checks accepts exactly the texts whose trimmed lower case is a host name of section 2.1 of RFC 1123, and returns that |
| Domains.ChecksAreGrammar | src-tauri/src/commands/adblock.rs:626-699 | for lower-case text the checks without the redundant ones are the grammar |
| Domains.ValidatorIdempotent | src-tauri/src/commands/adblock.rs:626-699 | validating an accepted entry again returns it |
| Domains.HostnameIsCanonical | src-tauri/src/commands/adblock.rs:626-699 | every host name is a fixed point of the validator |
| Blocklist.ValidDomainIff | src-tauri/crates/mhost-hosts/src/validator.rs:16-41 | the hosts parser takes exactly the names made of labels between dots, in either case and of any length, that are not all digits and dots |
| Blocklist.HostsLineIff | src-tauri/crates/mhost-hosts/src/parser.rs:200-262 | for a line of any words with any white space and any comment: without words it is ignored, an address and valid names give all the names in lower case, everything else is an error |
| Blocklist.DomainLineIff | src-tauri/src/commands/adblock.rs:775-796 | for a line of any text with any white space and any comment around it: blank is ignored, a host name in any case is accepted in lower case, everything else is an error |
| Blocklist.HostsFileReads | src-tauri/src/commands/adblock.rs:747-762 | a domain is read from a hosts-format file if and only if some line holds an address and only valid names, this one in some case among them |
| Blocklist.DomainsFileReads | src-tauri/src/commands/adblock.rs:775-796 | a domain is read from a domains-format file if and only if some line holds it in some case |
| Blocklist.ParsedInOrder | src-tauri/src/commands/adblock.rs:747-796 | domains come in the order of the lines, errors add up |
| Blocklist.ErrorsAreRejected | src-tauri/src/commands/adblock.rs:747-796 | the error count is the number of rejected lines |
| Spacing.LineParts | src-tauri/crates/mhost-hosts/src/parser.rs:200-232 | trimming a line, cutting it at the first comment sign, trimming and splitting again gives the words before the comment, whatever the white space |
| Spacing.EveryLine | src-tauri/crates/mhost-hosts/src/parser.rs:200-232 | every line is words with white space around them and perhaps a comment, so the statements above are about all lines |
| Blocklist.ParseDomainsBlocklist | src-tauri/src/commands/adblock.rs:775-796 | the loop computes the line-by-line reading of the domains format |
| Blocklist.ParseBlocklistDomains | src-tauri/src/commands/adblock.rs:747-762 | the loop computes the line-by-line reading of the hosts format, lower-cased, errors counted |
| Blocklist.DomainLinesPartition | src-tauri/src/commands/adblock.rs:775-796 | every line is accepted, counted as an error, or blank or comment; accepted entries are canonical host names |
| Blocklist.WriteCanon | src-tauri/src/commands/adblock.rs:966-988 | the single-buffer writer produces one prefixed line per domain with separators between them only |
| Blocklist.CanonFitsReservation | src-tauri/src/commands/adblock.rs:975-977 | the bytes written are the reservation less the last separator: the buffer never grows |
| Blocklist.CanonRoundTrip | src-tauri/src/commands/adblock.rs:966-988 | splitting on newlines and stripping the prefix gives back the list that was written |
| CacheReload.ReloadDropsNumericDomains | src-tauri/src/commands/adblock.rs:950-988 | a reload of the cached text yields the recorded domains without the numeric ones, in order; all of them if and only if none is numeric |
| CacheReload.NumericDomainIsLost | src-tauri/crates/mhost-hosts/src/validator.rs:16-41 | a list with the entry 1.2.3.4 is recorded as one rule and reloaded as none |
| Refresh.SettleIsSound | src-tauri/src/commands/adblock.rs:893-1005 | a 304 is accepted if and only if the cache file is there; otherwise a list is installed if and only if the reply that counts, the second one after a 304 without a file, brings an acceptable body and the disk takes it; what is installed is described by its record |
| Refresh.JudgeIff | src-tauri/src/commands/adblock.rs:937-964 | a body is taken if and only if it is text, within the limit of the source or else 500,000, and not all malformed |
| Refresh.SourceStore.FetchAndCacheSource | src-tauri/src/commands/adblock.rs:830-1062 | for a known source, field by field: success if and only if the first reply is a 304 and the file is there, or the reply that counts (the second one, to an unconditional request, after a 304 without a file) is usable; then the file is the canonical text of that body; a failure changes one error message and nothing else |
| RefreshSteps.Advanced | src-tauri/src/commands/adblock.rs:830-1062 | one access of a refresh: only a successful write touches the cache, only the bookkeeping touches records, no other refresh moves |
| RefreshSteps.RunKeepsInvariant | src-tauri/src/commands/adblock.rs:836-1062 | every reachable state keeps gates, phases, records and files consistent |
| RefreshSteps.CacheMatchesRecord | src-tauri/src/commands/adblock.rs:836-1062 | whenever no refresh holds the gate, the cache is missing or the canonical text of the version whose etag and rule count are recorded |
| RefreshSteps.GateIsExclusive | src-tauri/src/commands/adblock.rs:156-172 | two refreshes inside the gate of one source are the same refresh |
| RefreshSteps.OutsideKeeps | src-tauri/src/commands/adblock.rs:1795-1818 | disabling, purging, configuring and lost files, all without the gate, keep the invariant |
| RefreshSteps.RefusalKeepsRecord | src-tauri/src/commands/adblock.rs:1017-1062 | in every run, etag and rule count of a source change only when a new list is recorded and its date only when a refresh succeeds; a refusal leaves all but the error message |
| RefreshSteps.KeptSawTheFile | src-tauri/src/commands/adblock.rs:907-936 | in every run, a refresh that records an accepted 304 had it in hand at an earlier step at which the cache file was there |
| RefreshSteps.FailedRefreshWritesNothing | src-tauri/src/commands/adblock.rs:1050-1062 | over its whole life a refresh that ends refused has written no file and no record |
| RefreshSteps.RefusedHadCause | src-tauri/src/commands/adblock.rs:893-1005 | in every run, a refused refresh has an earlier step with a failed first reply, a second reply without a body, a body that is not acceptable, or a failed write |
| RefreshSteps.AskedAgain | src-tauri/src/commands/adblock.rs:907-934 | a refresh asks a second time only after a 304 that it handled when the cache file was gone |
| RefreshSteps.WrittenIsAcceptable | src-tauri/src/commands/adblock.rs:937-1003 | what a refresh writes or has written is the parse of a body it found acceptable |
| RefreshSteps.DoneHadEnd | src-tauri/src/commands/adblock.rs:836-1062 | every refresh that is done has recorded its outcome, or its source was gone |
| RefreshSteps.OutcomeIsNoted | src-tauri/src/commands/adblock.rs:1017-1062 | what each outcome leaves in every field of the record, and that the gate is free afterwards |
| RefreshSteps.RefreshEnds | src-tauri/src/commands/adblock.rs:836-1062 | whatever happens around it, a refresh that has its gate is done after at most seven accesses of its own |
| RefreshSteps.FreeGateIsTaken | src-tauri/src/commands/adblock.rs:836-842 | a waiting refresh that makes a move gets the gate if and only if nobody has it |
| RefreshSteps.FileWasWritten | src-tauri/src/commands/adblock.rs:1000-1005 | in every run, a cache file is what some refresh of its source wrote, and the source has been neither removed nor disabled since |
| RefreshSteps.EtagVouches | src-tauri/src/commands/adblock.rs:197-277 | with strong etags, an honest 304 to the conditional request means the cache is the canonical text of the current version |
| RefreshSteps.DateVouchesIff | src-tauri/src/commands/adblock.rs:1017-1048 | without an etag, when an honest 304 comes back the cached version is current if and only if nothing was published between the step that sent its body and the end of the second in which a success was last recorded, a later 304 included |
| RefreshSteps.WindowExists | src-tauri/src/commands/adblock.rs:1017-1048 | every cached list has such a step that sent it and such a last success |
| RefreshSteps.StaleRevalidation | src-tauri/src/commands/adblock.rs:1017-1048 | a reachable state in which an honest 304 keeps a list superseded while it was being fetched |
| RefreshSteps.StaleWithinSecond | src-tauri/src/commands/adblock.rs:1112-1114 | the same for a list superseded right after it was recorded, in the same second |
| FetchBatch.RunKeepsInvariant | src-tauri/src/commands/adblock.rs:1999-2035 | locks, permits and handles agree in every reachable state of overlapping batches |
| FetchBatch.PermitsAndGates | src-tauri/src/commands/adblock.rs:1999-2035 | a batch never has more refreshes under way than permits, a source never two holders |
| FetchBatch.ConcurrencyIsKept | src-tauri/src/commands/adblock.rs:2006-2026 | in every run, a batch started with a concurrency never has more refreshes under way than that, or than one if it is zero; while fewer are and ids are left it may submit another |
| FetchBatch.FinishedHasRecorded | src-tauri/src/commands/adblock.rs:830-1062 | a finished refresh has been through gate map and gate and has recorded the success of its fetch, or else the error that the source is gone or the fetch failed |
| FetchBatch.EachIdOnce | src-tauri/src/commands/adblock.rs:1999-2035 | a returned batch has run one refresh per submitted id, in order, each through the gate exactly once |
| FetchBatch.NoDeadlock | src-tauri/src/commands/adblock.rs:163-172 | while a batch has not returned some step is possible that starts nothing new |
| FetchBatch.SomeoneMoves | src-tauri/src/commands/adblock.rs:830-845 | whatever an unfinished refresh waits for, it or the holder can move: permit before gate before state lock |
| FetchBatch.SchedulesEnd | src-tauri/src/commands/adblock.rs:2006-2034 | every schedule without new batches is bounded by the remaining work |
| FetchBatch.StartCosts | src-tauri/src/commands/adblock.rs:2006-2034 | a batch of n ids adds 12 n steps of work |
| Trie.PutThenLookup | src-tauri/crates/mhost-dns/src/trie.rs:191-215 | an insertion changes the data of its own path only |
| Trie.DeepestIsLongest | src-tauri/crates/mhost-dns/src/trie.rs:243-288 | the single walk ends with the data of the longest registered prefix of the label path |
| Trie.Labels | src-tauri/crates/mhost-dns/src/trie.rs:141-175 | the loop collects the labels from the right up to an empty one |
| Trie.Trie.Insert | src-tauri/crates/mhost-dns/src/trie.rs:141-215 | registers exactly one path; a domain without labels is ignored |
| Trie.FindLongestSuffixMatch | src-tauri/crates/mhost-dns/src/trie.rs:243-288 | the loop computes the walk |
| Trie.InsertHolds | src-tauri/crates/mhost-dns/src/trie.rs:141-215 | inserting keeps the trie equal to its set of registrations, emptiness included |
| Trie.WalkFindsClosest | src-tauri/crates/mhost-dns/src/trie.rs:243-288 | a query is found if and only if it or a parent is registered, with the data of the closest one |
| Trie.ParentIsSuffix | src-tauri/crates/mhost-dns/src/trie.rs:243-288 | a registration of nonempty labels matches exactly itself and what ends in a dot and it, in any query text |
| Trie.ValidatedEntryMatches | src-tauri/crates/mhost-dns/src/trie.rs:243-288 | the same for validated entries, in any query text |
| Engine.AdBlockEngine.BuildTrie | src-tauri/crates/mhost-dns/src/adblock.rs:164-185 | domains inserted in any order give the trie of the set |
| Engine.AdBlockEngine.Reload | src-tauri/crates/mhost-dns/src/server.rs:457-468 | the engine then answers by these rules |
| Engine.AdBlockEngine.Check | src-tauri/crates/mhost-dns/src/adblock.rs:231-285 | the answer of the priority chain over plain sets, and which counter advances |
| Engine.OneCounterIff | src-tauri/crates/mhost-dns/src/adblock.rs:214-231 | exactly one counter advances if and only if the switch is on and there is something to block or a whitelist hit; otherwise none does |
| Engine.NoCounterAdvances | src-tauri/crates/mhost-dns/src/adblock.rs:214-231 | with the switch on and all sets empty no counter advances |
| Overlap.BucketMeansShared | src-tauri/src/commands/adblock.rs:1342-1358 | two or more sources in a bucket, one of them k, is the same as a domain that k shares with another enabled source |
| Overlap.BuildIndex | src-tauri/src/commands/adblock.rs:1342-1358 | the bucket of every domain is the list of sources that list it, once each, in source order |
| Overlap.CountShared | src-tauri/src/commands/adblock.rs:1360-1369 | the loop over the buckets counts for each source its shared domains |
| Overlap.ComputeOverlapReport | src-tauri/src/commands/adblock.rs:1327-1382 | one row per enabled source in order with the number of distinct domains it shares, whatever the parse cache holds |
| Overlap.ReportAddsUp | src-tauri/src/commands/adblock.rs:1360-1369 | the counts add up to the total size of the buckets with two or more sources |
| Overlap.DoubleCount | src-tauri/src/commands/adblock.rs:1360-1369 | counting by source and counting by domain agree |
| Overlap.BuildWhitelistMatcher | src-tauri/src/commands/adblock.rs:1259-1265 | the matcher holds exactly the whitelist |
| Overlap.ComputeOverlapDetails | src-tauri/src/commands/adblock.rs:1394-1480 | total, truncation and entries by the plain definition; an unknown or disabled source has none |
| Overlap.CountIsTotal | src-tauri/src/commands/adblock.rs:1372-1380 | the total of the drill-down is the number of shared domains and the count in the report |
| Overlap.EntriesAreLeast | src-tauri/src/commands/adblock.rs:1436-1446 | entries increase strictly; a missing shared domain means truncation and comes after all of them |
| Overlap.CoveredByIsOthers | src-tauri/src/commands/adblock.rs:1459-1467 | covered_by is the covering sources in order without the one asked about, and never empty |
| Overlap.EffectiveIsMembership | src-tauri/src/commands/adblock.rs:1446-1458 | with the switch on the label is whitelist suffix match, else membership in the installed nxdomain set, else in the zero-address map |
| Overlap.RuleDomains | src-tauri/src/commands/adblock.rs:539-564 | a domain is in an installed set if and only if an enabled source with that response lists it |
| Verdicts.ParsedHaveLabels | src-tauri/crates/mhost-hosts/src/validator.rs:16-41 | every domain a reload reads is in lower case and made of nonempty labels |
| Verdicts.RulesCoverIff | src-tauri/src/commands/adblock.rs:539-564 | an installed set matches a name if and only if an enabled source with that response lists it or a parent of it |
| Verdicts.WhitelistCoversIff | src-tauri/crates/mhost-dns/src/adblock.rs:254-258 | the whitelist matches any query text if and only if it or a parent of it is an entry |
| Verdicts.AnswerIsListed | src-tauri/crates/mhost-dns/src/adblock.rs:231-285 | from cache files to answers, for every query text: refused, blocked or passed exactly as master switch, whitelist, NXDOMAIN lists and zero-address lists say, parents included |
| Verdicts.CaseMattersIff | src-tauri/crates/mhost-dns/src/server.rs:577-579 | the answer to a query is that to the query in lower case if and only if what settles the latter has an entry whose part of the query has no capitals, or a whitelisted name is not blocked as it is spelled |
| Verdicts.CapitalsPass | src-tauri/crates/mhost-dns/src/server.rs:577-579 | a source that lists a name refuses it and lets every spelling of it with capitals pass |
| Verdicts.EngineAgreesIff | src-tauri/src/commands/adblock.rs:1234-1246 | the label is what the engine answers if and only if the domain is whitelisted, or the switch is on and an NXDOMAIN source lists it or none lists a parent of it |
| Verdicts.ParentRuleIsOverlooked | src-tauri/src/commands/adblock.rs:1446-1458 | for every name and parent of it, three cache files for which the label says zero address and the engine refuses |
| AdBlockCommands.AdBlockStore.AddWhitelist | src-tauri/src/commands/adblock.rs:2166-2198 | the old entries stay in front, and an entry is there afterwards if and only if it was or some input, trimmed and in lower case, is this host name; the other inputs are returned in order; persisted exactly if the list changed |
| AdBlockCommands.AdBlockStore.RemoveWhitelist | src-tauri/src/commands/adblock.rs:2226-2257 | exactly the entries that no input names, trimmed and in lower case, are left, in order; persisted exactly if the list changed |
| AdBlockCommands.AdBlockStore.ReorderSource | src-tauri/src/commands/adblock.rs:1905-1930 | the source changes places with the one before or behind it and all others stay; at an end of the list nothing is written |
| AdBlockCommands.AdBlockStore.SetRulesLimitOverride | src-tauri/src/commands/adblock.rs:1957-1985 | accepted exactly for no limit or 1 to 2,000,000, otherwise nothing changes |
| AdBlockCommands.AdBlockStore.SetRefreshInterval | src-tauri/src/commands/adblock.rs:1594-1609 | the interval is cut at 168 hours |
| AdBlockCommands.WhitelistBatches | src-tauri/src/commands/adblock.rs:2166-2257 | a batch leaves exactly the union, or exactly the difference |
| AdBlockCommands.InputsAreSorted | src-tauri/src/commands/adblock.rs:2166-2198 | accepted is exactly what some input stands for, rejected are the inputs that stand for no host name |
| AdBlockCommands.TargetsAreNamed | src-tauri/src/commands/adblock.rs:2226-2257 | the targets of a removal are the inputs trimmed and in lower case, without empty ones |
| AdBlockCommands.StepKeepsValid | src-tauri/src/commands/adblock.rs:1594-2257 | every command and every end of a refresh keeps the state valid |
| AdBlockCommands.RunKeepsValid | src-tauri/src/commands/adblock.rs:1594-2257 | in every run the whitelist is duplicate-free and canonical, overrides and rule counts within bounds, the interval at most 168 |
| AdBlockCommands.MovesPermute | src-tauri/src/commands/adblock.rs:1905-1930 | any number of moves permutes the sources |
| AdBlockCommands.MovesKeepRules | src-tauri/src/commands/adblock.rs:1891-1904 | after any moves a reload computes the same fingerprint, inputs and rules |
| AdBlockCommands.MoveUndone | src-tauri/src/commands/adblock.rs:1905-1930 | a move that took place is undone by the opposite one |
| CommandEffects.BlockedByTable | src-tauri/src/commands/adblock.rs:539-564 | which queries are blocked depends on the sources only through who is enabled with which response and what their cached lists cover |
| CommandEffects.TableAfter | src-tauri/src/commands/adblock.rs:1594-1985 | for every command, how each source answers afterwards: only enabling, disabling, adding, removing it and changing its response make a difference |
| CommandEffects.SettingsAfter | src-tauri/src/commands/adblock.rs:1594-2257 | for every command, what master switch, automatic refresh and whitelist are afterwards |
| CommandEffects.RecordAfter | src-tauri/src/commands/adblock.rs:1017-1062 | what the end of a refresh and a new limit leave in the record of every source |
| CommandEffects.UnblockedBy | src-tauri/src/commands/adblock.rs:539-564 | if the sources stop blocking a query one way, the command has disabled, removed or redirected a source that did |
| Profiles.ProfileStore.Load | src-tauri/crates/mhost-storage/src/storage.rs:197-207 | the stored profile, or not found |
| Profiles.ProfileStore.Save | src-tauri/crates/mhost-storage/src/storage.rs:209-248 | replaces the profile with that id or adds it, the others stay; ids remain distinct |
| Profiles.ProfileStore.Delete | src-tauri/crates/mhost-storage/src/storage.rs:250-268 | removes exactly that profile, or reports that it is missing |
| Profiles.WithoutIsFilter | src-tauri/crates/mhost-storage/src/storage.rs:250-268 | deleting leaves the other profiles in their order |
| Profiles.ProfileStore.DisableOthers | src-tauri/src/commands/profile.rs:152-169 | saving one by one ends with every other Hosts profile disabled and nothing else changed |
| Merge.Expand | src-tauri/crates/mhost-apply/src/merge.rs:36-55 | the loops list exactly the mappings of enabled rules of enabled profiles, comment rules skipped |
| Merge.FillTables | src-tauri/crates/mhost-apply/src/merge.rs:64-88 | the tables hold the first rule of each mapping and the addresses of each domain |
| Merge.Merged | src-tauri/crates/mhost-apply/src/merge.rs:34-145 | rules and conflicts are those of the plain definition, whatever the table order |
| Merge.MergePartitions | src-tauri/crates/mhost-apply/src/merge.rs:90-145 | a mapping is among the rules if and only if it is its domain's only address, in the conflict of its domain if and only if there are several |
| Merge.ConflictFreeIff | src-tauri/crates/mhost-apply/src/merge.rs:90-125 | no conflict if and only if no domain is mapped to two addresses |
| Merge.RulesOfProfiles | src-tauri/crates/mhost-apply/src/merge.rs:34-145 | an address is among the rules if and only if it is the only one that enabled profiles map the domain to |
| Merge.ConflictsOfProfiles | src-tauri/crates/mhost-apply/src/merge.rs:90-125 | a domain is in conflict if and only if enabled profiles map it to two addresses |
| Merge.MergeIsUnique | src-tauri/crates/mhost-apply/src/merge.rs:34-145 | the result does not depend on hash-table order |
| Merge.RulesAreSorted | src-tauri/crates/mhost-apply/src/merge.rs:127-145 | the rules are listed by domain, every domain once, each rule the first that maps its domain to its address |
| Merge.ConflictsAreListed | src-tauri/crates/mhost-apply/src/merge.rs:90-125 | the conflicts are listed by domain, every domain once |
| Merge.ConflictsAreSorted | src-tauri/crates/mhost-apply/src/merge.rs:102-125 | the rules of a conflict are listed by address, IPv4 before IPv6, every address once |
| Plan.CalculateDiff | src-tauri/crates/mhost-apply/src/diff.rs:16-55 | the three sorted differences of target and existing lines |
| Plan.GeneratePlan | src-tauri/crates/mhost-apply/src/lib.rs:22-37 | a plan of these profiles and this text |
| Plan.DiffConserves | src-tauri/crates/mhost-apply/src/diff.rs:36-55 | added and common lines are the target, removed and common the existing ones; a backup is required exactly if something changes |
| Plan.PlanIsDetermined | src-tauri/crates/mhost-apply/src/lib.rs:22-37 | profiles with the same ids, names, flags and rules have the same plans |
| Plan.PlanIsUnique | src-tauri/crates/mhost-apply/src/lib.rs:22-37 | profiles and hosts text have exactly one plan |
| HostsText.ExtractManagedBlock | src-tauri/crates/mhost-hosts/src/parser.rs:114-140 | the loop finds the one start and the one end marker line, in order, or nothing |
| HostsText.ExtractManagedBlockBytes | src-tauri/crates/mhost-hosts/src/parser.rs:155-182 | the same by offsets, from the start of the one line to the end of the other |
| HostsText.BlockIff | src-tauri/crates/mhost-hosts/src/parser.rs:114-140 | there is a block from one line to another if and only if the one is the only start marker and the other, behind it, the only end marker |
| HostsText.MarkIff | src-tauri/crates/mhost-hosts/src/parser.rs:114-140 | a marker line is the marker with white space around it |
| HostsText.ReadersAgreeIff | src-tauri/crates/mhost-hosts/src/parser.rs:144-182 | the two readers find the same block if and only if the end marker is not on the line right before the start marker |
| HostsFile.ExtractExistingLines | src-tauri/crates/mhost-apply/src/diff.rs:62-127 | the lines between the markers as the hosts parser reads them |
| HostsFile.ReadLineIff | src-tauri/crates/mhost-apply/src/diff.rs:100-127 | for a line of any words with any white space and any comment: a comment alone stays, an address and valid names give one line per name, everything else nothing |
| HostsFile.BuiltAround | src-tauri/crates/mhost-apply/src/writer/content.rs:23-48 | line by line, the new block stands between the lines outside the old one if the markers were good, otherwise between or behind all old lines, whose markers stay |
| HostsFile.BlockGivesWay | src-tauri/crates/mhost-apply/src/writer/content.rs:23-48 | character by character, the lines from the one marker to the other give way to the new block |
| HostsFile.BlockIsAppended | src-tauri/crates/mhost-apply/src/writer/content.rs:23-48 | a text without a block gets it at its end, on a line of its own |
| HostsFile.ManagedAfter | src-tauri/crates/mhost-apply/src/writer/content.rs:23-48 | after an apply the block reads as the written rules if the markers were good, otherwise no block is found; without rules nothing is managed |
| HostsFile.AllReadBackIff | src-tauri/crates/mhost-apply/src/diff.rs:62-127 | written rules read back as they are if and only if every domain is valid for the hosts parser |
| HostsFile.SettlesIff | src-tauri/crates/mhost-apply/src/diff.rs:16-55 | after an apply existing and target lines are the same if and only if there is no rule, or the markers were good and every domain is valid |
| HostsFile.SecondPlanIsEmptyIff | src-tauri/crates/mhost-apply/src/lib.rs:22-37 | planning again from the written text leaves nothing to add or remove under exactly that condition |
| HostsFile.ApplyAgainIff | src-tauri/crates/mhost-apply/src/writer/content.rs:23-48 | with rules a second apply leaves the text alone if and only if the markers were good, otherwise it appends another block; without rules it leaves it alone unless the text behind the removed block ended without a newline |
| HostsFile.OutsideIsKept | src-tauri/crates/mhost-apply/src/writer/content.rs:8-13 | with good markers every line outside the block stays as it is; without rules only these lines are left |
| HostsFile.NothingIsLost | src-tauri/crates/mhost-apply/src/writer/content.rs:8-13 | with bad ones the old text is still there around the new block |
| HostsFile.StrayMarker | src-tauri/crates/mhost-hosts/src/parser.rs:110-113 | a single start marker is malformed |
| HostsFile.UnderscoreIsOneWord | src-tauri/src/commands/profile.rs:60-80 | a domain that the validation of profiles accepts and the hosts parser rejects |
| Apply.GeneratePreviewPlan | src-tauri/src/commands/apply.rs:113-163 | missing profile, DNS profile, unreadable file and the plan with in-memory flags; nothing is changed |
| Apply.PreviewOutcome | src-tauri/src/commands/apply.rs:350-359 | the previewed plan with the ids that would be disabled |
| Apply.EnforceQuickApplyPolicy | src-tauri/src/commands/apply.rs:389-411 | with require_safe every foreseen outcome is let through if it has no conflict, disables nobody and changes at most 100 lines, and refused if not; an error of the preview is passed on |
| Apply.QuickIffHarmless | src-tauri/src/commands/apply.rs:38-50 | the decision is a quick apply if and only if the outcome is harmless in this sense |
| Apply.ApplyCurrentPlan | src-tauri/src/commands/apply.rs:268-294 | the plan of the stored profiles is written; a read or write error is passed on |
| Apply.EnableAndApplyLogic | src-tauri/src/commands/apply.rs:306-331 | flags toggled pointwise, then the plan they give; a missing profile changes nothing, a failing write leaves the flags toggled |
| Apply.ToggleSwitches | src-tauri/src/commands/apply.rs:306-331 | profile by profile: the target gets flag and time, the other Hosts profiles are disabled if a Hosts profile is enabled, nothing else changes |
| Apply.PreviewPredictsApply | src-tauri/src/commands/apply.rs:113-163 | for a Hosts profile the plans a preview may return are exactly those the toggle may write |
| Apply.DisabledIdsExactIff | src-tauri/src/commands/apply.rs:65-89 | the reported ids are exactly the other profiles that get disabled if and only if the target is Hosts, or is being disabled, or no Hosts profile is enabled |
| Apply.DnsTargetDisablesSilently | src-tauri/src/commands/apply.rs:306-331 | a DNS target for which the report misses a disabled profile |
| Apply.GuardBoundsWrite | src-tauri/src/commands/apply.rs:38-50 | what the guard lets pass is what the toggle writes: it disables nobody, has no conflict and changes at most 100 lines |
| Apply.EnableAndApply | src-tauri/src/commands/apply.rs:446-532 | succeeds if and only if the profile is there and, for a Hosts target, the guard lets it pass, the file is readable and the write succeeds; asks for a preview exactly if only the guard is in the way and then changes nothing; profile by profile what is stored, the plan returned is the one written, the ids are those of the profiles disabled; a DNS target leaves the file alone |
| ProfileCommands.ResolveNameConflict | src-tauri/src/commands/profile_io.rs:144-166 | the first candidate no Hosts profile has among the name and its numbered variants up to 100, or an error if all are taken |
| ProfileCommands.FreshNameIff | src-tauri/src/commands/profile_io.rs:144-166 | the chosen name is borne by a stored profile if and only if it is that of a DNS profile, and unique names stay unique if and only if it is not |
| ProfileCommands.CopyTakesDnsName | src-tauri/src/commands/profile_io.rs:116-141 | a DNS profile duplicated under its own name gives a second one of that name |
| ProfileCommands.CandidateCount | src-tauri/src/commands/profile_io.rs:152-160 | the candidates are a hundred different names |
| ProfileCommands.DecimalReads | src-tauri/src/commands/profile_io.rs:152-160 | the number in a candidate is written in decimal without leading zeros |
| ProfileCommands.FewProfilesLeaveAName | src-tauri/src/commands/profile_io.rs:144-166 | with fewer than a hundred listed profiles a candidate is free |
| ProfileCommands.CreateProfile | src-tauri/src/commands/profile.rs:91-108 | a disabled profile of the given mode, Hosts if none is given, is added if and only if it is valid, otherwise nothing changes |
| ProfileCommands.ImportProfile | src-tauri/src/commands/profile_io.rs:65-90 | a disabled Hosts profile with the parsed rules and a fresh name; succeeds whenever fewer than a hundred profiles are listed |
| ProfileCommands.DuplicateProfile | src-tauri/src/commands/profile_io.rs:116-141 | the copy is the original with a new id, a fresh name and the time, disabled and unprotected; succeeds if and only if the name is not blank, the original exists and a name is free |
| ProfileCommands.ImportFromJson | src-tauri/src/commands/profile_io.rs:273-317 | the decoded profile with a new id and a fresh name, disabled and unprotected |
| ProfileCommands.UpdateProfile | src-tauri/src/commands/profile.rs:223-253 | succeeds if and only if the profile exists and is valid after the edit; then it has the given name, description, rules, time and mode if one is given, and its old id, flag, tags and protection; the others stay as they are |
| ProfileCommands.SetProfileEnabled | src-tauri/src/commands/profile.rs:172-194 | profile by profile: a Hosts profile switches the others off, a DNS profile concerns only itself; a missing one changes nothing |
| ProfileCommands.ToggleExcludes | src-tauri/src/commands/profile.rs:172-194 | enabling a Hosts profile leaves it the only one whatever was enabled before; DNS profiles are untouched |
| ProfileCommands.StepExclusiveIff | src-tauri/src/commands/profile.rs:223-250 | a command keeps at most one Hosts profile enabled if and only if it is not the edit of an enabled DNS profile into a second enabled Hosts profile |
| ProfileCommands.RunExclusiveIff | src-tauri/src/commands/profile.rs:152-250 | over whole runs of commands the same if and only if |
| ProfileCommands.ModeFlipBreaksExclusivity | src-tauri/src/commands/profile.rs:223-250 | two profiles and an edit that break it |
| Search.FindMatches | src/lib/search.ts:36-53 | exactly the leftmost non-overlapping case-folded occurrences, each with the number of newlines before it |
| Search.AdvanceCursor | src/lib/search.ts:46-49 | the moving line cursor counts the newlines strictly before the match |
| Search.ScanIsUnique | src/lib/search.ts:36-53 | text and query determine the list of matches |
| Search.SpliceLast | src/components/RuleEditor.tsx:440-443 | splicing at the last match does not disturb the matches before it |
| Search.SpliceAll | src/components/RuleEditor.tsx:439-443 | splicing from the last match to the first equals simultaneous substitution |
| Search.ReplaceAll | src/components/RuleEditor.tsx:433-448 | replace-all is the substitution at a fresh scan; nothing without a query |
| Search.SubstitutedLength | src/components/RuleEditor.tsx:439-443 | the length changes by the same amount for every match |
| Segments.SegmentLine | src/components/RuleEditor.tsx:80-123 | the segments of a line spell the line, and a character is marked with the match that covers it and otherwise plain |
| Segments.SegmentText | src/components/RuleEditor.tsx:66-84 | the same for every line of a scanned text |
| Segments.LineIsThere | src/components/RuleEditor.tsx:72-78 | the accumulated offsets are where the lines start in the text |
| Escape.PassesAreEntities | src/lib/escape.ts:22-29 | the five passes equal the one-pass map from characters to entities |
| Escape.DecodeUndoesEscape | src/lib/escape.ts:22-29 | decoding gives the text back, whatever follows |
| Escape.NoMarkupLeft | src/lib/escape.ts:22-29 | no angle bracket and no quotation mark survives |
| HighlightHosts.TokenizeHostsBody | src/lib/highlightHosts.ts:84-97 | the body is cut into maximal runs, white space bare, the rest as domains |
| HighlightHosts.AddressIsLongest | src/lib/highlightHosts.ts:54-66 | the address at the start of a line is the longest dotted quad, or if there is none the longest run of hexadecimal digits and colons with a colon in it |
| HighlightHosts.HighlightHostsLine | src/lib/highlightHosts.ts:33-80 | blank lines give nothing, comment lines one span, other lines an optional address, the body and an optional comment that together spell the line |
| HighlightHosts.StripRendered | src/lib/highlightHosts.ts:33-97 | stripping a rendered token leaves its escaped text |
| HighlightHosts.ReadBack | src/lib/highlightHosts.ts:33-97 | stripping the spans and decoding gives the text of the tokens |
| HighlightHosts.HighlightAndReadBack | src/lib/highlightHosts.ts:33-80 | for every line that is not blank stripping and decoding returns the line |
| Fuzzy.Match | src/lib/fuzzy.ts:21-43 | succeeds if and only if the folded query is a subsequence of the folded text; positions pointwise least, score as defined |
| Fuzzy.Greedy | src/lib/fuzzy.ts:25-33 | the greedy loop finds the least embedding or there is none |
| Fuzzy.ScoreOf | src/lib/fuzzy.ts:35-41 | ten times the number of positions right after the one before, plus five times the number of those at the start of a segment, less the first position |
| Fuzzy.Rank | src/lib/fuzzy.ts:49-62 | exactly the matching items, each once, sorted; nothing for a blank query |
| Fuzzy.RankingReads | src/lib/fuzzy.ts:57-61 | earlier entries score higher, or the same and come first in the input |
| Sorting.SortIsOrderIndependent | src-tauri/src/commands/adblock.rs:491-497 | a sort whose ties are equalities forgets the order of arrival |
| Sorting.TextLeIff | src-tauri/src/commands/adblock.rs:491-497 | text is sorted by the first character that differs, a prefix comes first |

## Left out

- HTTP transport, TLS, timeouts, size limits on bodies and the formatting of dates: a fetch is a fresh body, a 304 or an error.
- File errors on the ad-block cache other than a failing write during a fetch; reads of unreadable caches count as missing, as in the code.
- The failure of persisting the state: a command then reports an error although memory has changed; `persists` counts the attempts.
- Lock fairness: in `FetchBatch` any waiter may take a free lock, so a fair lock allows fewer schedules and the results hold for it. Refreshes outside batches take no permit and are not in that system.
- FetchBatch.NoDeadlock: says that a step is possible in every state, not that a fair scheduler reaches every waiter.
- Which of two concurrent reloads wins: the gate promises that label and content agree, not that the newest snapshot is installed.
- A fetch in flight across a disable may leave a cache file behind, as the code documents; `RefreshSteps` allows it.
- Error texts are reduced to two constants in `Refresh` and to five kinds in `Profiles`; the reasons the whitelist validator gives are not modelled.
- Domains.ValidatorIsGrammar: measures the 253 limit in characters where the code measures bytes; they agree on the ASCII texts that can be accepted.
- ReloadGate.AdBlockReloadGate.ClassifyAndReload: runs alone; the interleaving of its accesses is in `ReloadSteps`.
- Refresh.SourceStore.FetchAndCacheSource: runs alone; the interleaving is in `RefreshSteps`, where the refresh duration and the time of the last failure are left out.
- Validation of profiles (`validate_profile`) and of imported rules is a parameter; so are the hosts parser of an import and the decoding of JSON.
- The hosts file writer: backup files, rollback and verification are a successful or failing write. `Plan` and `Apply` hold for any reading and any building of the managed block (`PlanEnv`); `HostsFile.EnvOf` is the one of the program.
- Offsets in a hosts text are counted in characters where the code counts bytes; they are only used to cut at line ends.
- How the DNS library renders the labels of a query: a query is any text.
- The store is a list of profiles with distinct ids in a stable order; the two directories, the manifest and unreadable profile files are not part of this model.
- Mutators that skip the apply lock, as the code documents: `Apply.EnableAndApply` is atomic.
- Editing an enabled Hosts profile also tries to write the hosts file and ignores a failure; only the store is modelled.
- Snapshots, the tray, DNS profile reloads, the refresh timer and the startup sweep of orphaned cache files.
- Source indices are unbounded where the overlap code narrows them to 32 bits.
- The trie is a value: nodes shared by reference, the inline label buffer and the rule count are not modelled.
- Search.FindMatches: the regular-expression engine is the leftmost scan for an escaped literal; case folding is one character to one character, as without the unicode flag.
- Segments.SegmentLine: states which characters are marked; the HTML around a segment is that of the editor's own line highlighter, which renders a segment of white space as nothing.
- Fuzzy.Match: characters are single code units on both sides, which is exact for queries in the basic multilingual plane.
- The caret-line cache of the editor, bookmarks of the current match, single replacement and debouncing.
- All other components, stores and windows of the user interface.
