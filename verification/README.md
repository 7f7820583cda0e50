# IaCTranslate: a verified model of the planner and its runtime

IaCTranslate turns an inventory of virtual machines into infrastructure code. This project
models the parts of it that make promises over all inputs or over whole runs, and proves
them. The pipeline part: which records are one machine and what it is called, one compute
plan per machine, the network carved for them, the validator run after the planner, the
topology graph, the on-premises networks left behind, observed dependencies and migration
waves. The runtime part: the durable job queue, the run lease, rate limiting, idempotency
keys and the circuit breaker around live prices.

Code that updates state in place is a class or a method with loops here, proved against a
specification function; lemmas about that function then say what the source promises.
Several processes at work at once are a transition system whose steps are the SQL writes
(or critical sections) of the source. Clock readings, randomness, what the language model
suggests, what an endpoint answers and the letter-case mapping of strings are parameters.
Floats are `real`.

| file | what it covers |
|---|---|
| `JobQueue`, `JobProtocol`, `PgClaim` | the job table, its protocol over many processes, the two-statement PostgreSQL claim |
| `RunLease` | one run per project |
| `TokenBucket`, `RateLimit`, `Eviction` | token buckets, the bounded table, the Redis script |
| `Idempotency`, `Breaker` | idempotency keys, circuit breaker |
| `Naming`, `Letters`, `Normalize`, `Namesakes`, `Inventory` | sanitizer, Terraform labels, what they keep of a text, identity, and names for namesakes |
| `PlanModel`, `Rightsizing`, `LandingZone`, `Network`, `Ipv4`, `AddressText` | plan data, compute plans, address blocks and their texts, network plan |
| `Validators`, `Planner`, `Graph`, `Topology` | the validator, planner against validator, the graph and all that is in it |
| `Dependencies`, `Observed`, `MutualGroups`, `Waves`, `CutoverOrder`, `Hybrid` | flows, what a report says of them, groups that move together, waves, violations, networks left behind |
| `Options`, `Text`, `Lists`, `Sorting`, `Sums`, `Tagged` | shared vocabulary |

## Where the code and its documentation disagree

Each of these is a lemma below.

- A worker that overruns its lease writes its outcome without checking that it still holds
  the job, so a job can run twice at once and leave `completed` again
  (`JobProtocol.OverrunBreaksExclusion`). A reclaim leaves every live worker in sole
  possession of its row exactly when none of them is past its lease
  (`JobProtocol.ReclaimSafeIff`); a job that is never reclaimed runs alone in any case
  (`JobProtocol.UnreclaimedIsExclusive`).
- The PostgreSQL claim never looks at the row count of its guarded update. It need not: the
  guard cannot fail (`PgClaim.GuardNeverFails`).
- A project's outcome is saved before its lease is released. A run that begins in between
  loses its start time to that release, and a third run starts beside it, with every run
  inside its lease (`RunLease.SaveEndGapBreaksExclusion`, `RunLease.SecondRunIff`).
- A cloud whose security groups differ in name but not in label defeats the planner: its plan
  repeats a label, and the validator says so (`Planner.PlanAndValidate`).
- A landing zone of /23 passes the zone check, whose message asks for "a /23 or larger", and
  then cannot be planned (`LandingZone.CarvableIff`, `Planner.PlanAndValidate`).
- A UUID cell that is not blank but holds only dashes, blanks, unsafe characters and `$(` is
  sanitized to the word "unnamed", so all machines with such cells become one
  (`Normalize.PlaceholderUuidsCollide`).
- A reordered export does not always name the machines the same way: of two namesakes whose
  UUIDs agree in the last eight characters, the first gets the short name
  (`Namesakes.TwinsSwap`). The order is immaterial exactly when, each against the original
  names alone, no two machines to be renamed pick the same name (`Namesakes.OrderFreeIff`).
- The PostgreSQL claim takes the oldest due row only among those nobody has locked
  (`PgClaim.SelectOrderIff`, `PgClaim.LockedOlderIsPassedOver`).
- The overlap flag of an on-premises network is right for every address exactly when the VPC
  text has no host bits and the VPC is a /24 or wider (`Hybrid.FlagIsRightIff`,
  `Hybrid.AlwaysRightIff`).
- A migration wave is a single environment's layer only if development does not meet test,
  nor production unknown, at one depth (`Waves.SingleEnvironmentIff`,
  `Waves.DevelopmentMeetsTest`).
- The half-open breaker lets exactly one probe through only if callers take turns
  (`Breaker.SecondProbeIff`).
- Evicting the least recently seen quarter of the rate limiter's buckets can be seen by the
  caller unless the dropped buckets were full (`RateLimit.DropUnobservableIff`,
  `RateLimit.SpentBucketShows`).
- An idempotency key can be executed twice at once when eviction removes the record of a
  request that still runs (`Idempotency.SecondExecutorIff`,
  `Idempotency.OvertimeRunsTwice`).

## Model

| member | source | states |
|---|---|---|
| `JobQueue.SqlJobQueue.constructor` | src/iactranslate/api/jobs_sqlite.py:102-137 | opening the queue takes back exactly the running rows whose lease is missing or over, and leaves all others as they are |
| `JobQueue.SqlJobQueue.Submit` | src/iactranslate/api/jobs_sqlite.py:164-182 | an id in use is refused and nothing changes; else one row is added, with the project and kind given, queued, no attempts, the queue's limit, created and visible now, and no lease, start, finish or error |
| `JobQueue.SqlJobQueue.ReclaimExpired` | src/iactranslate/api/jobs_sqlite.py:206-220 | exactly the running rows with a missing or past lease are queued again, due at once, without a lease and otherwise as they were; they are counted |
| `JobQueue.SqlJobQueue.Claim` | src/iactranslate/api/jobs_sqlite.py:222-258 | takes nothing exactly when no row is queued and visible; else a row created no later than any such row, which is then running since now, leased for 900 seconds, one attempt further and otherwise as it was; no other row changes |
| `JobQueue.SqlJobQueue.Run` | src/iactranslate/api/jobs_sqlite.py:273-295 | a handler that returns completes the row now, whatever the row is by then; one that raises, or is missing, sends it back or to its death with that error, as the claimed snapshot's attempts say; no other row changes |
| `JobQueue.SqlJobQueue.OnFailure` | src/iactranslate/api/jobs_sqlite.py:297-313 | at the attempt limit the row is dead now with its error; below it waits 5^attempts seconds with that error; the lease goes, the rest stays |
| `JobQueue.SqlJobQueue.FinishDead` | src/iactranslate/api/jobs_sqlite.py:315-325 | the row ends dead with its error, no lease and its attempts, and no other row differs |
| `JobQueue.OldestExists` | src/iactranslate/api/jobs_sqlite.py:222-258 | among due rows there is one created first, so a claim always finds its row |
| `JobProtocol.InvPreserved` | src/iactranslate/api/jobs_sqlite.py:206-295 | every step of any process keeps ownership, leases and attempt counts, if a reclaim meets no live worker past its lease |
| `JobProtocol.ReclaimSafeIff` | src/iactranslate/api/jobs_sqlite.py:206-220 | a reclaim keeps live workers in sole possession of their rows exactly when none of them is past its lease |
| `JobProtocol.InvHolds` | src/iactranslate/api/jobs_sqlite.py:206-295 | the invariant holds after every run in which reclaims spare the living |
| `JobProtocol.MutualExclusion` | src/iactranslate/api/jobs_sqlite.py:206-295 | with work inside its lease, no job has two live workers, each worker's row is running and untouched, and a row has a lease exactly while running |
| `JobProtocol.AttemptsAreClaims` | src/iactranslate/api/jobs_sqlite.py:222-258 | in every run, leases kept or not, attempts equal the claims made and exceed the limit by at most the reclaims |
| `JobProtocol.BudgetPreserved` | src/iactranslate/api/jobs_sqlite.py:222-323 | every step keeps a job's attempts, its being queued, and the live workers that could queue it again within limit and reclaims |
| `JobProtocol.UnreclaimedIsExclusive` | src/iactranslate/api/jobs_sqlite.py:206-295 | in every run a job never reclaimed has at most one live worker, on the row as claimed, however late others are |
| `JobProtocol.FinalForever` | src/iactranslate/api/jobs_sqlite.py:273-323 | completed and dead rows never change again over orderly runs |
| `JobProtocol.OverrunBreaksExclusion` | src/iactranslate/api/jobs_sqlite.py:291-309 | a concrete run: past its lease a job has two workers, is completed, and is queued again |
| `JobProtocol.WaitedClosedForm` | src/iactranslate/api/jobs_sqlite.py:297-309 | 5 + 25 + ... + 5^n is (5^(n+1) - 5) / 4 |
| `JobProtocol.DeadLettersWereRetried` | src/iactranslate/api/jobs_sqlite.py:243-309 | in every run a dead job never reclaimed used all its attempts and spent at least (5^max - 5) / 4 seconds since its first claim |
| `JobProtocol.SoloPreserved` | src/iactranslate/api/jobs_sqlite.py:222-323 | every step keeps a job never reclaimed in its one worker's hands, each stage at its time |
| `JobProtocol.WorkUsesWeight` | src/iactranslate/api/jobs_sqlite.py:243-323 | each claim and each final write uses up a measure over remaining attempts and status; only reclaims add to it |
| `JobProtocol.ReclaimRaises` | src/iactranslate/api/jobs_sqlite.py:206-220 | a reclaim adds exactly one to the measure for each row it takes back |
| `JobProtocol.WorkIsBounded` | src/iactranslate/api/jobs_sqlite.py:243-323 | with no submits a run, restarts and crashes included, makes at most as many claims and final writes as the measure and the reclaims add up to |
| `JobProtocol.NeverStuck` | src/iactranslate/api/jobs_sqlite.py:222-323 | the measure is zero exactly when all jobs are final; until then work becomes possible by waiting, or the rescue of a job whose worker died |
| `JobProtocol.QueueDrains` | src/iactranslate/api/jobs_sqlite.py:222-323 | with no submits a run does bounded work and ends with all jobs final, or with work or a rescue ahead; crash-free and with nothing abandoned, no rescue is needed |
| `PgClaim.PgInvPreserved` | src/iactranslate/api/sql.py:105-127 | a locked row stays queued and due and is locked by one transaction, whatever the others do |
| `PgClaim.StepRefines` | src/iactranslate/api/sql.py:165-188 | a commit is one atomic claim of the row its select locked; select, update and rollback are invisible |
| `PgClaim.SplitClaimRefinesAtomicClaim` | src/iactranslate/api/sql.py:105-127 | every interleaving of select, update and commit reaches exactly the state of a run of atomic claims |
| `PgClaim.GuardNeverFails` | src/iactranslate/api/jobs_sqlite.py:243-258 | the guarded update always finds its row queued, so the ignored row count is never zero |
| `PgClaim.SelectOrderIff` | src/iactranslate/api/sql.py:123-127 | the select takes the oldest due row, as the atomic claim does, exactly when no older due row is locked |
| `PgClaim.AloneIsAtomic` | src/iactranslate/api/sql.py:105-127 | with no other claim open the three statements are one claim of the oldest due row |
| `PgClaim.LockedOlderIsPassedOver` | src/iactranslate/api/sql.py:123-127 | a concrete state in which a younger row is taken while an older due one is locked |
| `PgClaim.SplitMutualExclusion` | src/iactranslate/api/jobs_sqlite.py:222-258 | mutual exclusion carries over to the split claim |
| `RunLease.StoresAgreeIff` | src/iactranslate/api/store.py:136-350 | the two stores answer alike except for a running project without a start time while the clock is inside its first lease |
| `RunLease.ProjectStore.TryBeginRun` | src/iactranslate/api/store.py:136-156 | a project is claimed unless it is running and its start, or zero if it has none, is within 900 seconds; claimed, it is running since now; a refusal or an unknown id changes nothing |
| `RunLease.ProjectStore.EndRun` | src/iactranslate/api/store.py:158-163 | clears the start time only |
| `RunLease.SqlProjectStore.TryBeginRun` | src/iactranslate/api/store.py:339-350 | one conditional update: claims unless the project is running since at most 900 seconds; claimed, it is running since now; else nothing changes |
| `RunLease.SqlProjectStore.EndRun` | src/iactranslate/api/store.py:352-353 | clears the start time whoever holds it |
| `RunLease.SqlProjectStore.Save` | src/iactranslate/api/store.py:355-366 | overwrites the status and not the lease |
| `RunLease.InvPreserved` | src/iactranslate/api/main.py:958-1019 | a disciplined step keeps at most one run in flight, the one the lock names while it works |
| `RunLease.SavedIsFinalPreserved` | src/iactranslate/api/main.py:979-1019 | between its save and its release a run leaves a status that is not running |
| `RunLease.SecondRunIff` | src/iactranslate/api/main.py:970-976 | a second run gets in beside one in flight exactly when that one has saved or outlived its lease |
| `RunLease.OneRunAtATime` | src/iactranslate/api/main.py:958-1019 | over every disciplined run of any number of callers at most one run is in flight |
| `RunLease.SaveEndGapBreaksExclusion` | src/iactranslate/api/main.py:970-976 | a concrete run, inside every lease, that ends with two runs in flight |
| `Text.DecimalRoundTrip` | src/iactranslate/agents/rightsizing.py:221-230 | a decimal suffix reads back as its number |
| `Text.LexLeqIff` | src/iactranslate/agents/network.py:139 | names sort by code point: a prefix first, and else the first difference decides |
| `Text.SuffixInjective` | src/iactranslate/agents/rightsizing.py:221-230 | different numbers make different suffixed names |
| `Text.FirstUnused` | src/iactranslate/agents/rightsizing.py:223-230 | the suffix search terminates and finds the least number from its start that is not taken |
| `Naming.SanitizeCleans` | src/iactranslate/normalize.py:148-177 | the sanitizer's output is nonempty, without unsafe characters or `$(`, and its blanks and dashes are single and inside |
| `Naming.SanitizeFixesExactlyClean` | src/iactranslate/normalize.py:148-177 | it leaves a name alone exactly when it is of that kind |
| `Naming.SanitizeIdempotent` | src/iactranslate/normalize.py:160-170 | sanitizing twice is sanitizing once |
| `Letters.SanitizeKeepsWords` | src/iactranslate/normalize.py:148-177 | unless nothing is left, a sanitized name has exactly the characters of its text that are not blank, dash, unsafe or in a `$(`, in their order and in the same words |
| `Naming.ScrubbedEmptyIff` | src/iactranslate/normalize.py:160-177 | nothing is left of a name exactly when every character is blank, a dash, unsafe, or part of a `$(` |
| `Naming.SafeNameIsLabel` | src/iactranslate/models.py:49-61 | every string becomes a valid Terraform identifier of lower-case words joined by single underscores |
| `Naming.SafeNameFixesExactlyLabels` | src/iactranslate/models.py:49-61 | it leaves a string alone exactly when it is such a label |
| `Naming.SafeNameIdempotent` | src/iactranslate/models.py:49-61 | making a safe name safe changes nothing |
| `Letters.SafeNameKeepsWords` | src/iactranslate/models.py:49-61 | a safe name has exactly the letters and digits of the lower-cased text in the same words, prefixed if a digit leads; with none it is "resource" |
| `Naming.NumberedIdentifier` | src/iactranslate/agents/rightsizing.py:225-230 | a numbered label is still a valid identifier |
| `Namesakes.PickName` | src/iactranslate/normalize.py:216-230 | the search terminates with the narrowest free suffix of the machine's own UUID, or all of it and the first free number |
| `Namesakes.PickUnique` | src/iactranslate/normalize.py:216-230 | there is only one pick |
| `Namesakes.PickStays` | src/iactranslate/normalize.py:216-230 | a pick stays the pick when other names are taken |
| `Text.UnusedExists` | src/iactranslate/normalize.py:226-229 | the first free number exists, whatever is taken |
| `Namesakes.Disambiguate` | src/iactranslate/normalize.py:193-232 | only namesakes with a UUID are renamed, in order of first appearance, each to the pick against the original names and those given before |
| `Namesakes.AfterAll` | src/iactranslate/normalize.py:206-231 | the loops by name and position give each machine that pick |
| `Namesakes.GivenIsNew` | src/iactranslate/normalize.py:216-231 | a given name is no original name and none given before, and is cut from the machine's own UUID |
| `Namesakes.DisambiguatedDistinct` | src/iactranslate/normalize.py:193-232 | machines of distinct identity end up with distinct names |
| `Namesakes.ShortNamesIff` | src/iactranslate/normalize.py:216-230 | everyone gets the short name exactly when the short names clash with nothing |
| `Namesakes.OrderFreeIff` | src/iactranslate/normalize.py:202-204 | machines are named the same in every order exactly when, against the original names alone, no two to be renamed pick the same name |
| `Namesakes.OwnPickKept` | src/iactranslate/normalize.py:202-231 | then each gets its own pick whenever its turn is |
| `Namesakes.FirstGetsOwn` | src/iactranslate/normalize.py:206-231 | whoever comes first in the export gets its own pick |
| `Namesakes.ShortNamesApart` | src/iactranslate/normalize.py:216-230 | free short names are one way for the picks to differ |
| `Namesakes.TwinsSwap` | src/iactranslate/normalize.py:202-231 | two namesakes whose UUIDs agree in the last eight characters: the same machine is named differently in the two orders |
| `Namesakes.TwinsExist` | src/iactranslate/normalize.py:215-221 | there are such machines |
| `Namesakes.SuchAsThese` | src/iactranslate/normalize.py:215-221 | `app01` with the UUIDs 100000017 and 200000017, for one |
| `Namesakes.RenamedStaysClean` | src/iactranslate/normalize.py:148-232 | a name made safe is still safe after renaming |
| `Normalize.SameIdentityIff` | src/iactranslate/normalize.py:186-190 | two records are one machine exactly when both have UUIDs equal up to case, or neither has and the names agree |
| `Normalize.CellIff` | src/iactranslate/normalize.py:131-183 | a UUID cell is absent exactly when blank, and reads "unnamed" when nothing else is left of it |
| `Normalize.SameCellsIff` | src/iactranslate/normalize.py:180-190 | two cells make one machine exactly when both are absent and the names agree, or they sanitize to one text up to case |
| `Normalize.PlaceholderUuidsCollide` | src/iactranslate/normalize.py:148-190 | all machines whose UUID cell is made of dashes, blanks, unsafe characters and `$(`, and not blank, are one machine |
| `Normalize.PlaceholdersExist` | src/iactranslate/normalize.py:145-177 | "-", "--" and "$(" are such cells |
| `Normalize.Normalize` | src/iactranslate/normalize.py:235-268 | each record with a name is read field by field; of those, exactly one machine per identity, the first record of it with the largest total disk, in order of first occurrence, under pairwise distinct names |
| `Inventory.RoundsToNearest` | src/iactranslate/models.py:104-106 | the total disk is compared to the nearest hundredth, halves going to the even one |
| `Normalize.ReorderedRecords` | src/iactranslate/normalize.py:235-268 | records in another order give the same machines and names, where no two records of one machine tie for disk and the picks differ |
| `Ipv4.OverlapsIffShared` | src/iactranslate/validation/validators.py:73-78 | the endpoint test of overlap holds exactly when two blocks share an address |
| `Ipv4.SubnetOfIffIncluded` | src/iactranslate/validation/validators.py:69-71 | the endpoint test of inclusion holds exactly when every address of one block is in the other |
| `Ipv4.NestedOrDisjoint` | src/iactranslate/hybrid.py:95-99 | a block that meets a wider one lies inside it |
| `Ipv4.NetworkRoundTrip` | src/iactranslate/landing_zone.py:152-154 | a printed block parses back to itself, strictly or not |
| `Ipv4.ParsedIsValid` | src/iactranslate/validation/validators.py:28-29 | whatever parses is an aligned block inside the address space |
| `AddressText.OctetIff` | src/iactranslate/hybrid.py:88-92 | an octet is a number up to 255 as it is written plainly, without leading zeros |
| `AddressText.AddressIff` | src/iactranslate/hybrid.py:88-92 | the texts that read as an address are exactly four such octets between dots, the first the most significant |
| `AddressText.NetworkIff` | src/iactranslate/validation/validators.py:28-29 | the texts that read as a block are exactly an address, or an address, a slash and the digits of a prefix up to 32; the block is the aligned one around the address, which must be its first when strict |
| `LandingZone.BlockInside` | src/iactranslate/landing_zone.py:143-154 | a range of prefix p holds 2^(24-p) whole /24 blocks |
| `LandingZone.BlocksDisjoint` | src/iactranslate/landing_zone.py:143-154 | different carved blocks share no address |
| `LandingZone.CarvedTexts` | src/iactranslate/landing_zone.py:132-154 | public blocks come first, private ones next, `count` of each, and there was room for all |
| `LandingZone.BlockReadsBack` | src/iactranslate/landing_zone.py:152-154 | a carved text reads back as its block inside the range |
| `LandingZone.CarvableIff` | src/iactranslate/landing_zone.py:73-154 | the zone check accepts exactly the /23 and wider, and exactly the /22 and wider can be planned |
| `LandingZone.RefusedIff` | src/iactranslate/landing_zone.py:73-151 | which texts are refused as unreadable, as too small, and as leaving too few subnets |
| `Rightsizing.CheapestFit` | src/iactranslate/targets/base.py:66-74 | a fitting type exactly if the catalog has one, and none that fits is cheaper |
| `Rightsizing.CheapestIsFirst` | src/iactranslate/targets/base.py:74 | among equals in price, CPUs and memory the first of the catalog is taken |
| `Rightsizing.Largest` | src/iactranslate/targets/base.py:85 | a catalog member that none exceeds |
| `Rightsizing.LargestIsFirst` | src/iactranslate/targets/base.py:85 | among equally large types the first of the catalog |
| `Rightsizing.SmallestFitIsBestAt` | src/iactranslate/targets/base.py:50-85 | if anything carries the need, the choice does, is of the preferred family if anything of that family does, and is the cheapest such, the first of equals; else it is the largest type |
| `Rightsizing.DemandIsLoad` | src/iactranslate/sizing.py:36-58 | a type meets the demand exactly when, at the target utilization, it takes what was in use and at least one CPU and GiB; without figures, when it has a fifth more than the machine |
| `Rightsizing.VolumesHoldDisks` | src/iactranslate/agents/rightsizing.py:111-116 | the root volume is the first disk of any size rounded up, and at least 30; each further such disk has its own volume, in order, rounded up; together they hold all disk space and add less than a GiB per disk beyond the root floor |
| `Rightsizing.EnsureUniqueResourceNames` | src/iactranslate/agents/rightsizing.py:202-230 | in place: only labels change, and each is the one chosen given all assigned before it |
| `Rightsizing.ChooseLabel` | src/iactranslate/agents/rightsizing.py:217-230 | an unused label is kept; a used one gets the first free number after its count of uses |
| `Rightsizing.LabelsDistinct` | src/iactranslate/agents/rightsizing.py:202-230 | labels are pairwise distinct, generated ones included |
| `Rightsizing.KeepsLabelIff` | src/iactranslate/agents/rightsizing.py:202-230 | a plan keeps its label exactly when no earlier plan was assigned it |
| `Rightsizing.LabelsStayIdentifiers` | src/iactranslate/agents/rightsizing.py:202-230 | labels stay valid identifiers |
| `Rightsizing.PlanFor` | src/iactranslate/agents/rightsizing.py:119-199 | the plan has the machine's name, the tier and environment given, that tier's subnet tier and security group, the suggested type if the catalog has it and else the best one for the machine's load, and volumes that hold its disks one by one |
| `Rightsizing.BuildComputePlans` | src/iactranslate/agents/rightsizing.py:119-199 | one plan per machine in order, with its name, its tier and environment (other and unknown if unclassified), their subnet tier and group, the suggested type or the best fit, its disks volume by volume; labels valid, distinct, and the safe name unless an earlier plan has that, then numbered |
| `Network.BalancerServes` | src/iactranslate/agents/network.py:49-72 | a listed balancer fronts exactly the plans of its key, once each and in plan order, on the ports of the first one's group |
| `Network.NeededIsThere` | src/iactranslate/agents/network.py:43-58 | a key that two or more plans share, whose first plan's group opens a port, has a balancer |
| `Network.NamedIsLast` | src/iactranslate/agents/network.py:42 | of groups of one name the last counts |
| `Network.BalancersHaveDistinctKeys` | src/iactranslate/agents/network.py:49-51 | no two load balancers serve one tier, environment and subnet tier |
| `Network.MembersExact` | src/iactranslate/agents/network.py:43-45 | a group's members are the plans of its key and no others |
| `Network.PlanLoadBalancers` | src/iactranslate/agents/network.py:38-73 | each balancer's targets are the names of exactly the plans of its tier, environment and subnet tier, in plan order, two or more; its group is the first one's and its listeners exactly the ports that group opens; every key that two plans share behind an open port has one; they come in order of the printed key |
| `Network.PlanGroups` | src/iactranslate/agents/network.py:139-151 | one security group for each name in use, in name order, with the cloud's rules for that name, or of its application group, or none; in them the cloud's own range, and nothing else, is replaced by the actual one |
| `Network.PlanNetwork` | src/iactranslate/agents/network.py:102-159 | fails exactly when carving fails; else a public and a private subnet for each zone in turn with its carved range, the groups, the balancers, and a NAT gateway exactly if a plan is private |
| `Validators.CheckCompute` | src/iactranslate/validation/validators.py:40-55 | reports exactly the unknown types, invalid and repeated labels and small roots, naming the first holder |
| `Validators.SubnetReportExact` | src/iactranslate/validation/validators.py:57-78 | the range issues are exactly the unreadable, outside and overlapping ranges |
| `Validators.CheckSubnets` | src/iactranslate/validation/validators.py:57-78 | the loops produce that report |
| `Validators.ReferenceIssuesExact` | src/iactranslate/validation/validators.py:80-88 | reports exactly the undefined groups and tiers without a subnet |
| `Validators.CheckLabels` | src/iactranslate/validation/validators.py:90-95 | reports exactly the group and subnet labels that occurred before |
| `Validators.ValidatePlan` | src/iactranslate/validation/validators.py:32-97 | an issue is reported if and only if the plan has that defect |
| `Planner.PlanDefects` | src/iactranslate/agents/__init__.py:16-47 | a plan assembled by the agents can only have nothing to plan, or a repeated group label |
| `Planner.GroupLabelsRepeatIff` | src/iactranslate/agents/network.py:139-151 | a group label repeats exactly when two machines are in groups of different names and the same safe name |
| `Planner.DistinctGroupsNeverClash` | src/iactranslate/targets/base.py:131 | that never happens with a cloud whose group names have distinct safe names |
| `Planner.DashMeetsUnderscore` | src/iactranslate/models.py:49-61 | groups "a-b" and "a_b" clash |
| `Planner.PlanAndValidate` | src/iactranslate/agents/__init__.py:16-47 | for any inventory, any suggestion and any range: planning succeeds exactly for a /22 or wider, and then the validator is silent exactly when there is something to plan and no two machines' security groups share a label |
| `Graph.AssignSubnets` | src/iactranslate/graph.py:90-112 | places machine i in the round robin of its tier's subnets, or of all subnets if it has none |
| `Graph.LoadExact` | src/iactranslate/graph.py:104-111 | each slot gets the whole share and the first few one more |
| `Graph.BuildGraph` | src/iactranslate/graph.py:115-225 | builds the node and edge lists of the specification |
| `Graph.NodesExact` | src/iactranslate/graph.py:115-225 | the node ids are exactly those of the VPC, subnets, groups, instances and balancers |
| `Topology.NodesNamed` | src/iactranslate/graph.py:121-198 | the nodes are exactly one for the network and one for each subnet, group, instance and balancer, each under its own name |
| `Graph.EdgesJoinNodes` | src/iactranslate/graph.py:115-225 | both ends of every edge are nodes, for every plan whatever |
| `Topology.EdgesExact` | src/iactranslate/graph.py:131-222 | the edges are exactly: the network to each subnet; each instance to the subnet of its turn and to its group; each balancer to every subnet of its tier, to its group, and to the instance of each of its targets |
| `Topology.TurnIff` | src/iactranslate/graph.py:99-111 | an instance's subnet is the one at its number among the earlier plans of its tier, modulo that tier's subnets in plan order, or all subnets if it has none |
| `Graph.OutOfPlan` | src/iactranslate/graph.py:66-67 | the edges leaving an instance are its own placement and security edges |
| `Graph.OnePlacementOneGroup` | src/iactranslate/graph.py:164-190 | in a plan the validator accepts each instance has one placement edge, to a subnet of its tier, and one security edge, to its group |
| `Graph.PlacedIsLoad` | src/iactranslate/graph.py:104-111 | a subnet's share of the round robin is the machines of its tier whose turn it was |
| `Graph.HostedIsPlaced` | src/iactranslate/graph.py:164-190 | with distinct machine names the placement edges into a subnet are exactly its share |
| `Graph.SubnetsBalanced` | src/iactranslate/graph.py:90-112 | in the graph of a plan the validator accepts, the placement edges into any two subnets of a tier differ by at most one |
| `Dependencies.IndexByIp` | src/iactranslate/dependencies.py:208-214 | maps exactly the listed addresses, each to its first owner |
| `Dependencies.OwnerIsFirst` | src/iactranslate/dependencies.py:208-214 | an address has an owner exactly when somebody lists it, and it is the first who does |
| `Observed.RouteIff` | src/iactranslate/dependencies.py:245-277 | a flow that is not noise is booked from the first machine listing its source address to the first listing its destination, to the outside address if nobody lists that, and nowhere if nobody lists the source or both are one machine |
| `Dependencies.Tally` | src/iactranslate/dependencies.py:245-277 | the two ledgers hold, per pair, exactly the ports and connections of the flows routed to it; every flow is counted once |
| `Dependencies.Counted` | src/iactranslate/dependencies.py:243-277 | mapped, unmapped and filtered flows add up to all flows |
| `Dependencies.ListDependencies` | src/iactranslate/dependencies.py:279-282 | each pair once, in order, with all its ports and connections |
| `Dependencies.ListExternals` | src/iactranslate/dependencies.py:283-289 | each caller and outside address once, in order, with all its ports and connections |
| `Dependencies.TotalsConserved` | src/iactranslate/dependencies.py:245-289 | the listed connections add up to those of the mapped flows |
| `Dependencies.NoSelfDependency` | src/iactranslate/dependencies.py:269-271 | no workload depends on itself |
| `Observed.ReportedCalls` | src/iactranslate/dependencies.py:269-282 | a pair is listed exactly when a flow that is not noise goes from the first to the second, with the ports and the sum of the connections of all of them |
| `Observed.ReportedExits` | src/iactranslate/dependencies.py:262-289 | an outside address is listed under a machine exactly when such a flow goes there, with the ports and connections of all of them |
| `Observed.CountsAgree` | src/iactranslate/dependencies.py:245-277 | the filtered flows are exactly the noise and those within one machine, the unmapped exactly those from an address nobody lists |
| `MutualGroups.CollectPartners` | src/iactranslate/dependencies.py:307-312 | partners are exactly those who call each other |
| `MutualGroups.Component` | src/iactranslate/dependencies.py:319-326 | the stack search terminates and finds exactly what a chain of mutual calls reaches |
| `MutualGroups.FindGroups` | src/iactranslate/dependencies.py:300-329 | groups are sorted, have two or more members, are disjoint, come in order of their first names, and hold two workloads exactly when a chain of mutual calls links them |
| `Waves.GroupByKey` | src/iactranslate/waves.py:109-113 | each key's list is exactly the plans of that key, in order |
| `Waves.MovesBeforeIff` | src/iactranslate/waves.py:38-57 | the ranks order two plans exactly as their environments and tiers say |
| `Waves.PlanWaves` | src/iactranslate/waves.py:102-150 | a plan moves in an earlier wave than another exactly when its stage is earlier (development and test, staging, the rest) or equal with an earlier tier (data and other, application, web); each wave lists by name exactly its plans, as often as they occur, and waits for exactly the earlier waves of its stage |
| `Waves.ListedIff` | src/iactranslate/waves.py:119-145 | a wave lists a name exactly when a plan of that name moves in it |
| `Waves.ScheduledOnce` | src/iactranslate/waves.py:102-150 | with distinct names every workload is listed by exactly one wave, its own |
| `Waves.SingleEnvironmentIff` | src/iactranslate/waves.py:105-107 | every plan moves in a wave of its own environment exactly when no two plans of one stage and one depth differ in environment |
| `Waves.DevelopmentMeetsTest` | src/iactranslate/waves.py:51-57 | a development and a test database are moved by one wave |
| `CutoverOrder.ScheduleOf` | src/iactranslate/dependencies.py:334-337 | a name's wave is that of the last wave listing it |
| `CutoverOrder.FindViolations` | src/iactranslate/dependencies.py:339-351 | one violation for each dependency whose source moves before its target, with both ends, their waves and the ports; in order of wave, source and target |
| `Sorting.SortStable` | src/iactranslate/dependencies.py:351 | sorting leaves ties in the order they came in |
| `CutoverOrder.AnalyzeDependencies` | src/iactranslate/dependencies.py:224-297 | a pair of machines is listed exactly when a flow with enough connections on a port that counts goes from an address the first machine owns to one the second owns, with all ports and connections of such flows; external addresses likewise; filtered and unmapped flows are counted exactly; groups are the chains of mutual calls, violations those of the schedule |
| `CutoverOrder.SplitGroupViolates` | src/iactranslate/dependencies.py:300-351 | a must-move-together group split across waves has a violation between two of its own members |
| `CutoverOrder.SilentIff` | src/iactranslate/dependencies.py:332-351 | the list is empty exactly when no dependency moves backwards |
| `CutoverOrder.QuietOrderIsSafe` | src/iactranslate/dependencies.py:332-351 | then everything a workload needs, however indirectly, moves with it or earlier |
| `CutoverOrder.ViolationIff` | src/iactranslate/waves.py:98-150 | under the planner's own waves a call is a violation exactly when its caller's stage is earlier than its target's, or equal with an earlier tier |
| `CutoverOrder.EndsAreMachines` | src/iactranslate/dependencies.py:245-282 | both ends of a dependency are machines of the inventory |
| `CutoverOrder.OwnEstateIsScheduled` | src/iactranslate/waves.py:102-150 | over one estate the planner's waves schedule both ends of every dependency |
| `Hybrid.GroupBlocks` | src/iactranslate/hybrid.py:117-131 | each block gathers exactly the private, readable addresses in it with their ports, connections and callers |
| `Hybrid.AddDeclared` | src/iactranslate/hybrid.py:133-140 | declared ranges are added as they read, and one already observed keeps what was seen |
| `Hybrid.PlanHybrid` | src/iactranslate/hybrid.py:102-157 | each observed or declared block once, busiest first, with exactly the addresses, ports and callers of the private dependencies whose /24 it is and the sum of their connections; flagged exactly when it and the VPC, both without host bits, share an address |
| `Hybrid.AllInOneNetwork` | src/iactranslate/hybrid.py:117-131 | every private, readable address is in exactly one network |
| `Hybrid.ConnectionsConserved` | src/iactranslate/hybrid.py:117-131 | the networks' connections add up to those of the private, readable addresses |
| `Hybrid.SummaryReadsBack` | src/iactranslate/hybrid.py:88-92 | the summary of an address is its /24, and contains it |
| `Hybrid.FlaggedIffInside` | src/iactranslate/hybrid.py:95-99 | for a VPC of /24 or wider a block is flagged exactly when its address is in the VPC |
| `Hybrid.NarrowVpcFlagsStrangers` | src/iactranslate/hybrid.py:95-99 | every narrower VPC flags some address outside it |
| `Hybrid.FlagIsRightIff` | src/iactranslate/hybrid.py:88-99 | the flag is right for every address exactly for a VPC text without host bits and of /24 or wider |
| `Hybrid.PlanFlagsRight` | src/iactranslate/hybrid.py:142-157 | for a VPC of /24 or wider every network returned is flagged exactly when its addresses lie in the VPC |
| `Hybrid.AlwaysRightIff` | src/iactranslate/hybrid.py:102-157 | the flags are right about every estate exactly for a VPC text without host bits and of /24 or wider |
| `TokenBucket.GrantsPlusLevel` | src/iactranslate/api/ratelimit.py:115-126 | grants since a request plus what is left never exceed the limit plus what was earned |
| `TokenBucket.WindowBound` | src/iactranslate/api/ratelimit.py:94-130 | any window grants a key at most the limit plus what the window earns |
| `TokenBucket.SpacedNeverRefused` | src/iactranslate/api/ratelimit.py:94-130 | requests at least a limit-th of the period apart are never refused |
| `TokenBucket.WaitIsTight` | src/iactranslate/api/ratelimit.py:128-130 | waiting as advised yields a whole token; more than a second less does not |
| `TokenBucket.RetryAfterIsExact` | src/iactranslate/api/ratelimit.py:123-130 | a refused caller granted nothing since is granted after the advised wait and refused more than a second before it |
| `RateLimit.RateLimiter.Evict` | src/iactranslate/api/ratelimit.py:132-143 | below the cap nothing; else the idle go, and if that is not enough the least recently seen quarter; the table ends below the cap |
| `RateLimit.RateLimiter.Check` | src/iactranslate/api/ratelimit.py:94-130 | answers from the key's level, changes only that key and what eviction drops, never exceeds the cap, and is a step of the table under any eviction; a limit of zero lets everything pass |
| `RateLimit.IdleIsFull` | src/iactranslate/api/ratelimit.py:132-138 | a bucket idle for a period is full |
| `RateLimit.EvictionDropsFull` | src/iactranslate/api/ratelimit.py:132-138 | unless it drops the least recently seen, eviction drops only full buckets |
| `RateLimit.CheckIsBoundedStep` | src/iactranslate/api/ratelimit.py:94-143 | so a check is a step of the bounded table that drops full buckets only |
| `RateLimit.BoundedRefinesUnbounded` | src/iactranslate/api/ratelimit.py:94-143 | over any run the bounded table dropping full buckets answers as the unbounded one |
| `RateLimit.GrantsUnderEviction` | src/iactranslate/api/ratelimit.py:94-143 | under any eviction a stretch of requests grants a key at most the limit, what it earned, and one more limit per drop of its bucket |
| `RateLimit.DropUnobservableIff` | src/iactranslate/api/ratelimit.py:132-143 | dropping a bucket changes no later answer exactly when it is full |
| `RateLimit.SpentBucketShows` | src/iactranslate/api/ratelimit.py:132-143 | dropping the spent bucket of a limit of one lets the caller through |
| `RateLimit.SharedBuckets.Evaluate` | src/iactranslate/api/ratelimit_redis.py:47-86 | the script's answer and its one changed key, with a new expiry of two periods rounded up |
| `RateLimit.ScriptRefinesUnbounded` | src/iactranslate/api/ratelimit_redis.py:47-86 | on one timeline the expiring script gives every request the answer of the unbounded table |
| `Eviction.DropOldest` | src/iactranslate/api/ratelimit.py:140-143 | keeps all but a quarter, none kept being older than one dropped |
| `Idempotency.IdempotencyStore.Evict` | src/iactranslate/api/idempotency.py:139-146 | drops exactly the expired, and at the cap the oldest quarter; the table ends below the cap |
| `Idempotency.IdempotencyStore.Begin` | src/iactranslate/api/idempotency.py:95-115 | claims an absent key, else replays, conflicts or rejects another body; nothing else changes and the cap holds |
| `Idempotency.BeginMeans` | src/iactranslate/api/idempotency.py:95-115 | a key without a record gets one in flight since now with the body's fingerprint; else its record stays, and another body is rejected, one in flight conflicts, a finished one is replayed; other keys keep what they had |
| `Idempotency.IdempotencyStore.Complete` | src/iactranslate/api/idempotency.py:117-127 | stores the response in the key's record, if it is still there |
| `Idempotency.CompleteMeans` | src/iactranslate/api/idempotency.py:117-127 | the key's record is no longer in flight, has the response, and is otherwise as it was; other keys are untouched |
| `Idempotency.IdempotencyStore.Abandon` | src/iactranslate/api/idempotency.py:129-137 | removes the key's record only |
| `Idempotency.IdempotencyStore.Serve` | src/iactranslate/api/main.py:221-283 | an uninterrupted request remembers its response exactly if it is a 2xx |
| `Idempotency.InvPreserved` | src/iactranslate/api/main.py:221-283 | per key: a step that spares the key's record while a request runs under it keeps that record in flight and the request alone |
| `Idempotency.InvHolds` | src/iactranslate/api/idempotency.py:95-146 | so over every run in which the live table is below the cap and the key's record within its lifetime, at each begin made while a request runs under the key |
| `Idempotency.OneAtATime` | src/iactranslate/api/main.py:221-283 | from an empty table two requests never run under a key whose record is within its lifetime below the cap, whatever other keys do |
| `Idempotency.OthersConflict` | src/iactranslate/api/idempotency.py:95-115 | meanwhile every other request with the key is told to wait, or that its body differs |
| `Idempotency.RoomySpares` | src/iactranslate/api/idempotency.py:139-146 | eviction spares a running key when its record is within its lifetime and the live ones are below the cap |
| `Idempotency.SecondExecutorIff` | src/iactranslate/api/idempotency.py:95-115 | a second request starts under a running key exactly when eviction removes the first one's record; else it conflicts or is rejected |
| `Idempotency.OvertimeRunsTwice` | src/iactranslate/api/idempotency.py:139-146 | a concrete run in which two requests run under one key, the second after the first one's lifetime |
| `Idempotency.LiveIsKept` | src/iactranslate/api/idempotency.py:139-146 | below the cap a record is kept exactly within its lifetime |
| `Idempotency.EndStores` | src/iactranslate/api/main.py:268-277 | the end of a remembered request stores what its handler produced |
| `Idempotency.StoredForGood` | src/iactranslate/api/idempotency.py:95-127 | a stored response never changes while its record is within its lifetime below the cap, whatever other keys do |
| `Idempotency.ReplaysForGood` | src/iactranslate/api/idempotency.py:95-115 | over that time every request with the key replays exactly that response, or is rejected for another body |
| `Idempotency.ClaimsBalance` | src/iactranslate/api/idempotency.py:95-146 | in every run a key is executed as often as its record was taken away, and once more while it is there |
| `Breaker.PriceSource.RecordFailure` | src/iactranslate/pricing.py:435-447 | counts a failure and from the third on restarts the window; no other cloud changes |
| `Breaker.PriceSource.RecordSuccess` | src/iactranslate/pricing.py:450-454 | forgets the cloud's failures |
| `Breaker.PriceSource.LiveHourly` | src/iactranslate/pricing.py:460-485 | fetches exactly when nothing is cached, the cloud is known and its breaker is not open; records the result |
| `Breaker.FetchesAreBounded` | src/iactranslate/pricing.py:421-485 | while an endpoint fails, callers in turn make at most three fetches and one per window in any stretch of calls |
| `Breaker.ThirdFailureOpens` | src/iactranslate/pricing.py:421-454 | after a success the breaker stays closed for two failures and the third opens it |
| `Breaker.SecondProbeIff` | src/iactranslate/pricing.py:421-447 | a second caller after the window is let through exactly when the first has not recorded its failure yet |

## Left out

- HTTP routes, sessions, encryption, spreadsheet parsing, file output, all renderers, the web app and the scripts: plumbing, or templates with no meaning to prove against.
- Live price fetchers, the price cache on disk and line-item rates: foreign calls; the breaker is modelled around an abstract fetch.
- Costs, confidence, readiness, recommendations, transfer figures, notes, summaries, reasons, image keys and operating-system notes: short sums and texts that would only add easy members.
- Float rounding: limits, times, sizes and utilizations are real numbers. Rounding to cents of a disk total is modelled, as halves to even.
- The clock is nondecreasing. Only the Redis script, which guards against it, is modelled for a clock that runs back.
- IPv6 and netmask notation: `ipaddress` also reads `10.0.0.0/255.255.0.0` and IPv6 texts; here they do not parse. Whether an address is private is a parameter.
- Landing zone tags, key ids and name prefixes: checked by the zone, not used by the plan.
- Letter case in identities: `lower` is any function from strings to strings, so nothing depends on Unicode case tables. In labels only ASCII letters and the two characters that lower to ASCII are mapped.
- Sorted lists of ports and names inside a report entry are sets here; lists whose order callers see (groups, waves, dependencies, violations, networks) are sequences. Listeners of a load balancer are a set of ports, the protocol following from the port.
- Printed issue texts, wave ids and node ids are data rather than text: an issue names plan entries by position, a wave id is its three parts, a node id its kind and label.
- Assumed of a cloud: a nonempty catalog, a positive target utilization and total tier maps.
- Threads inside one process: a mutex-guarded method is one step. Worker threads, polling, shutdown and the event bus are not part of this model.
- The in-memory job queue, audit ring, roles, metrics, inventory diff and pagination: simpler than the machines chosen.
- Model-provider calls, classification into tiers, and de-identification are not part of this model; classification is a parameter.
- RunLease.OneRunAtATime: asks that no run begins while another has saved and not released, or outlived its lease, and that only holders write the status; without that it is false, as the two lemmas beside it show.
- JobProtocol.FinalForever: asks that reclaims meet no live worker past its lease; without that it is false, as JobProtocol.OverrunBreaksExclusion shows.
- RateLimit.SharedBuckets.Evaluate: does not model the fallback when Redis is unreachable beyond `Check` using its own bucket then, nor the number format of stored hashes.
- Waves.PlanWaves: does not state downtime, rollback texts and validation checks, which are table look-ups.
- Normalize.ReorderedRecords: one direction, from records to names; with two different records of one machine and the same disk the first in the file wins, so their order can show. For the machines after that, Namesakes.OrderFreeIff is exact.
