# A model of cbench in Dafny

cbench is a cluster benchmarking toolkit.  This project models the parts of it that carry an
algorithm or a protocol, and proves what they are for:

- the two host list programs, `cbench/sbin/hostlist.py` (Python 2, "legacy" here) and
  `cbench/python/cbench/hostlist.py` ("modern"): expanding an expression such as `n[1-3,07]-a`,
  collecting a list of hosts into one, the round trips, and the agreement of the two expanders;
- `mpi_tokensmash.c`: the torus, the roles, the life of a token, and the whole distributed program as
  a system of steps over ranks, tokens, channels, posted receives and control words;
- `mpi_latency.c`: the handshake with ready-mode sends;
- the check mode of the IMB benchmarks: the CRC-32, the search by checksum, the contiguity check, the
  division of a buffer among ranks, and the process map with its groups;
- `b_eff.c`: the ring patterns and the orders of the ranks; `rotate.c`: the pairing of the halves.

## How it is built

Code that changes things step by step is a `method` with its loops, proved equal to a function or to
the property that the source promises; code made of expressions is a function.  The laws are lemmas
about those functions.  The proofs are many small lemmas; `hide` statements keep definitions out of
proofs that do not need them.

| files | subject |
|---|---|
| Text, Lists, Ordering, Arithmetic, Sums, Permutations, Wrappers | vocabulary |
| HostSyntax, LegacyExpand, LegacyCollect | the legacy expander; the legacy collector as functions |
| LegacyShape, LegacyCollector | why no group takes another's names; the collector's loops |
| LegacyOutput | what collected text looks like: order, brackets, ranges |
| LegacyRoundTrip, LegacyTheorem, LegacyOverflow | the legacy round trip, and where it fails |
| ModernExpand, ModernCompress, ModernOutput | the modern program; the order and the runs of its output |
| HostGrammar, ModernMeaning, ModernRoundTrip | the grammar, what the modern expander makes of it, spaces included; its round trip |
| HostAgreement, HostErrors | the two expanders agree on the grammar; what each refuses |
| Torus, TokenRoles, TokenCycle | neighbours, roles and tags, one dealer's tokens |
| Mpi, Receives, TokenMachine | channels, queues of posted receives, the step system |
| TokenSafety, TokenLedger, TokenTheorem | its invariants, its accounts of bytes, bounces and steps, its runs |
| Latency | the three-role handshake |
| CrcTable, Crc, Contiguous, RankPortion, ProcessMap | IMB |
| Rings, RandomPattern, Rotate | patterns of ranks |

## Where the code falls short of its promise

- The legacy round trip holds exactly when every range of the collected expression ends below the
  limit of `xrange` (`LegacyTheorem.RoundTrip`, both directions); `LegacyOverflow.RoundTripOverflows`
  names two hosts for which it fails.  Hosts whose names are too short to hold such a number are
  always safe (`LegacyTheorem.RoundTripOfShortNames`).
- `xplus` is the torus's neighbour exactly when `xsize > 1` (`Torus.NarrowEast`); on a mesh one rank
  wide its last rank deals to a rank that does not exist.  Every other mesh that the option check
  accepts is covered, those with an axis of size one included, where a rank is its own edge.
- Tags are unique exactly up to 255 tokens (`TokenRoles.TagsUnique`).

`pos2 - pos1 + 1` of `IMB_get_rank_portion` can be negative (`RankPortion.NegativeSizes`), but the
sizes that reach the contiguity check are clipped at 0 first (IMB_init_transfer.c, line 136), and so
clipped the portions always tile the buffer.  The fill of the process map
makes a permutation exactly on grids that hold all processes, which the check of `-map` demands
(`ProcessMap.GridSuffices`).

## Model

| member | source | states |
|---|---|---|
| LegacyExpand.ExpandRange | cbench/sbin/hostlist.py:134-160 | one range: the plain number, every number of `a-b` padded to the width of `a`, or the error that the source raises |
| LegacyExpand.ExpandRangelist | cbench/sbin/hostlist.py:125-132 | the hosts of the ranges in order, or the first error |
| LegacyExpand.ExpandHostlist | cbench/sbin/hostlist.py:50-88 | the scan at top-level commas, with the errors for nested and unbalanced brackets, then the removal of duplicates, after which there are none |
| LegacyExpand.RemoveDuplicates | cbench/sbin/hostlist.py:162-170 | every element once, picked in order at the first place that holds it |
| LegacyExpand.WithoutDuplicates | cbench/sbin/hostlist.py:50-88 | for every expression, expanding without duplicates gives the hosts of expanding with them, each once and where it comes first, or the same error |
| LegacyExpand.PartGroup | cbench/sbin/hostlist.py:102-123 | a bracket group followed by any rest expands to the cross product of both, within the size limit |
| LegacyExpand.PartPrepend | cbench/sbin/hostlist.py:102-123 | text before a part is put before each of its hosts |
| LegacyExpand.ScanPart | cbench/sbin/hostlist.py:60-82 | a part with closed brackets is scanned as one part |
| LegacyExpand.HostlistOfParts | cbench/sbin/hostlist.py:60-82 | joined parts are expanded one by one, in order |
| HostErrors.LegacyBrackets | cbench/sbin/hostlist.py:60-82 | no expression with nested or unbalanced brackets is expanded, and each bracket error has its cause |
| HostErrors.DashedRange | cbench/sbin/hostlist.py:143-155 | of two numerals: the descending range, the one that is too long, the one beyond xrange, or the numbers |
| HostErrors.BadRanges | cbench/sbin/hostlist.py:137-148 | a bad range is exactly what is neither a numeral nor two of them |
| HostErrors.DescendingPart | cbench/sbin/hostlist.py:90-155 | an expression with a descending range is refused |
| LegacyCollect.MatchFacts | cbench/sbin/hostlist.py:230-231 | the pattern finds the rightmost number: the pieces make up the name and nothing after the number is a digit |
| LegacyCollect.RoundShrinks | cbench/sbin/hostlist.py:206-208 | every round with a number shortens the longest unprocessed left part, so the folding loop ends |
| LegacyShape.Separation | cbench/sbin/hostlist.py:270-305 | a name that fits the prefix and suffix of another entry's group belongs to that group |
| LegacyCollector.RoundKeepsShape | cbench/sbin/hostlist.py:211-325 | after k rounds every entry has k folded fields on its right and no trailing number left undecided |
| LegacyCollector.KeyDoesNotReturn | cbench/sbin/hostlist.py:257-271 | in the sorted list the entries of one group stand together |
| LegacyCollector.GroupLeavesOthers | cbench/sbin/hostlist.py:270-318 | folding a group takes exactly the group's names out of `remaining` |
| LegacyCollector.ScanRange | cbench/sbin/hostlist.py:292-300 | the inner loop takes the longest run of names with consecutive numbers at one width |
| LegacyCollector.CollectGroup | cbench/sbin/hostlist.py:281-302 | the ranges of a group, against the group's set of numerals |
| LegacyCollector.FoldGroups | cbench/sbin/hostlist.py:262-325 | one result for each group, in sorted order, and whether a number is left |
| LegacyCollector.ScanEntries | cbench/sbin/hostlist.py:223-251 | the sort list and the set of names, or the failure to match |
| LegacyCollector.CollectRound | cbench/sbin/hostlist.py:211-325 | one round of collect_hostlist_1 |
| LegacyCollector.CheckNames | cbench/sbin/hostlist.py:189-203 | the loop over the hosts, with the skip of empty lines and of discarded hosts |
| LegacyCollect.AcceptedHosts | cbench/sbin/hostlist.py:189-203 | a list is refused exactly for a forbidden character in some stripped host that is not discarded; otherwise the names are those of exactly the non-empty, unforbidden hosts of the whole list, stripped and in order |
| Text.TrimParts | cbench/sbin/hostlist.py:192 | strip takes only blanks away, at both ends, and leaves none there |
| Text.TrimOf | cbench/sbin/hostlist.py:192 | and it leaves exactly that |
| LegacyCollector.CollectHostlist | cbench/sbin/hostlist.py:174-209 | rounds until no number is left, and the names joined |
| LegacyOutput.NamesInOrder | cbench/sbin/hostlist.py:206-209 | the parts of the collected expression are different and in the order of strings |
| LegacyOutput.RoundKeys | cbench/sbin/hostlist.py:270-271 | a round leaves one entry for each prefix and suffix, made of all hosts that have them |
| LegacyOutput.GroupText | cbench/sbin/hostlist.py:281-325 | a lone number has no brackets, several have; the ranges cover each number once and no range begins right behind another of its width |
| Ordering.CompareIsLexicographic | cbench/sbin/hostlist.py:257 | strings are compared as in a dictionary |
| LegacyRoundTrip.RangesCover | cbench/sbin/hostlist.py:281-302 | the ranges of a group cover its numerals exactly, each once, mixed widths included |
| LegacyRoundTrip.FormattedRanges | cbench/sbin/hostlist.py:327-333 | formatted ranges expand to the numerals that they cover |
| LegacyRoundTrip.GroupMeaning | cbench/sbin/hostlist.py:270-318 | a folded group stands for exactly the hosts of its members, each once |
| LegacyTheorem.RoundMeaning | cbench/sbin/hostlist.py:211-325 | a round keeps the set of hosts that the entries stand for, each host once |
| LegacyTheorem.RoundsMeaning | cbench/sbin/hostlist.py:206-208 | so do all rounds, which never fail to match |
| LegacyTheorem.RoundTrip | cbench/sbin/hostlist.py:50-333 | for hosts without newlines, at most MAX_SIZE different ones once stripped: collecting fails exactly for a forbidden character that is not discarded; expanding the result gives exactly the stripped, non-empty, unforbidden hosts, each once, if and only if the ranges fit `xrange`, and raises the overflow otherwise |
| LegacyTheorem.RoundTripOfShortNames | cbench/sbin/hostlist.py:50-333 | the round trip always succeeds when no name is long enough for a number at the limit |
| LegacyOverflow.RoundTripOverflows | cbench/sbin/hostlist.py:134-160 | two hosts with numbers at sys.maxint that do not survive the round trip |
| ModernExpand.SplitTopLevel | cbench/python/cbench/hostlist.py:25-45 | the loop over the characters, with the two errors, and the stripping |
| HostErrors.TopLevel | cbench/python/cbench/hostlist.py:25-45 | the split fails exactly for unbalanced brackets; otherwise the pieces joined by commas are the expression, each with balanced brackets and commas only inside them, and the tokens are the pieces in order, stripped at both ends, without the blank ones |
| HostErrors.DescendingToken | cbench/python/cbench/hostlist.py:48-64 | an expression whose first group is a descending range is refused |
| ModernExpand.ExpandToken | cbench/python/cbench/hostlist.py:48-70 | the recursive substitution of the first group, and that it ends |
| ModernExpand.Expand | cbench/python/cbench/hostlist.py:73-78 | the hosts of the tokens in order, or the first error |
| ModernExpand.CutBrackets | cbench/python/cbench/hostlist.py:50-54 | cutting a token takes one opening bracket out, which is why the recursion ends |
| ModernMeaning.WidthRules | cbench/python/cbench/hostlist.py:62-65 | the two rules for padding write the same numerals from a numeral upwards |
| HostAgreement.LegacyParts | cbench/sbin/hostlist.py:90-160 | the legacy expander gives a well-formed expression its meaning |
| ModernMeaning.LooseToken | cbench/python/cbench/hostlist.py:48-70 | re-scanning after each substitution gives a well-formed token its meaning, with any blanks around the items and empty items between the commas |
| ModernMeaning.LooseSpec | cbench/python/cbench/hostlist.py:48-78 | expanding an expression whose tokens and items have any blanks around them, with empty pieces between the commas, gives the meaning of its tokens |
| HostAgreement.ExpandersAgree | cbench/python/cbench/hostlist.py:48-78 | both expanders return the same ordered list on the whole common grammar |
| ModernCompress.Ranges | cbench/python/cbench/hostlist.py:81-92 | the maximal runs of the sorted distinct numbers |
| ModernCompress.Fmt | cbench/python/cbench/hostlist.py:127-131 | a lone number without brackets, several with |
| ModernCompress.Classify | cbench/python/cbench/hostlist.py:97-110 | names without trailing digits, and the groups by prefix and width, whatever the order of the set |
| ModernCompress.PaddedLine | cbench/python/cbench/hostlist.py:116-121 | a padded group takes the natural numbers of its width out of the natural group |
| ModernCompress.Compress | cbench/python/cbench/hostlist.py:95-124 | the result depends on the set of hosts only, not on order or repetition |
| ModernOutput.CompressedOrder | cbench/python/cbench/hostlist.py:112-124 | one part for every name without number in the order of strings, then by prefix one for each padded width, rising, and one for the numbers left |
| ModernOutput.RunsApart | cbench/python/cbench/hostlist.py:81-92 | a number is missing between each run and the next |
| ModernOutput.NameFacts | cbench/python/cbench/hostlist.py:97-110 | a host's number is all of the digits at its end |
| ModernRoundTrip.FormattedMeaning | cbench/python/cbench/hostlist.py:81-92 | a formatted group denotes its numbers at its width |
| ModernRoundTrip.PaddedStand | cbench/python/cbench/hostlist.py:113-123 | the padded groups of a prefix stand for exactly the names of those widths, absorbed ones included |
| ModernRoundTrip.RoundTrip | cbench/python/cbench/hostlist.py:48-131 | expanding the compressed hosts gives exactly those hosts, each once |
| Torus.NeighbourMoves | cbench/opensource/mpi_tokensmash/mpi_tokensmash.c:761-856 | each neighbour is in range, moves one coordinate by one round its axis and keeps the others |
| Torus.NarrowEast | cbench/opensource/mpi_tokensmash/mpi_tokensmash.c:783-799 | xplus is the torus's neighbour exactly when xsize > 1, and may be no rank otherwise |
| Torus.OppositeReturns | cbench/opensource/mpi_tokensmash/mpi_tokensmash.c:761-856 | plus and minus are inverse on every axis |
| Torus.SelfNeighbour | cbench/opensource/mpi_tokensmash/mpi_tokensmash.c:761-856 | a rank is its own neighbour exactly along an axis of size one |
| Torus.WalkReturns | cbench/opensource/mpi_tokensmash/mpi_tokensmash.c:761-856 | a walk in one direction is back at its start after whole turns of the axis and only then |
| TokenRoles.TagDecodes | cbench/opensource/mpi_tokensmash/mpi_tokensmash.c:697 | a tag gives back its dealer and token and is neither the control nor the statistics tag |
| TokenRoles.TagsUnique | cbench/opensource/mpi_tokensmash/mpi_tokensmash.c:341 | tags of all dealers and tokens are different exactly for at most 255 tokens |
| TokenRoles.TopologyRolesInit | cbench/opensource/mpi_tokensmash/mpi_tokensmash.c:541-718 | the roles of a rank, on a star and on every mesh at least two ranks wide |
| TokenRoles.DealerRole | cbench/opensource/mpi_tokensmash/mpi_tokensmash.c:541-681 | the one DEALER role of a rank, its own, is the first; on a star only rank 0 has one |
| TokenRoles.DealerEdges | cbench/opensource/mpi_tokensmash/mpi_tokensmash.c:575-661 | its edges: all other ranks of a star, or one step east, west, north, south, up and down on the torus |
| TokenRoles.RoleTags | cbench/opensource/mpi_tokensmash/mpi_tokensmash.c:684-700 | every role has a tag for each token, of the dealer it names |
| TokenRoles.EdgeServes | cbench/opensource/mpi_tokensmash/mpi_tokensmash.c:586-700 | every edge of a DEALER role has an EDGE role that names the dealer, with the same tags |
| TokenRoles.EdgeIsServed | cbench/opensource/mpi_tokensmash/mpi_tokensmash.c:586-700 | every EDGE role names a rank whose DEALER role has it among its edges, with the same tags |
| TokenMachine.RolesOfRank | cbench/opensource/mpi_tokensmash/mpi_tokensmash.c:541-718 | the machine's edges and its numbers of EDGE receives are those of the roles |
| TokenRoles.EdgeNamesDealer | cbench/opensource/mpi_tokensmash/mpi_tokensmash.c:586-681 | every edge of every dealer holds the EDGE role that names the dealer |
| TokenRoles.DealerNamesEdge | cbench/opensource/mpi_tokensmash/mpi_tokensmash.c:586-681 | every EDGE role faces an edge of the dealer it names |
| TokenRoles.SelfEdges | cbench/opensource/mpi_tokensmash/mpi_tokensmash.c:586-681 | a rank of such a mesh deals to itself exactly when an axis has size one |
| TokenCycle.OneReturn | cbench/opensource/mpi_tokensmash/mpi_tokensmash.c:1248-1345 | one return moves the counter, the edge and the last edge on, and the last of them finishes the token |
| TokenCycle.CycleAccounting | cbench/opensource/mpi_tokensmash/mpi_tokensmash.c:1248-1345 | after n returns the counter is (n-1) div num_edges and the edge (start+n) mod num_edges; return number count*num_edges+1 finishes, no other |
| TokenCycle.DealsOfFinished | cbench/opensource/mpi_tokensmash/mpi_tokensmash.c:1248-1431 | a finished token was dealt to every edge position count times and to its start once more |
| TokenCycle.FinishedDealer | cbench/opensource/mpi_tokensmash/mpi_tokensmash.c:1248-1424 | a dealer whose tokens are finished has dealt tokens*(count*num_edges+1) messages |
| TokenCycle.Dealer.constructor | cbench/opensource/mpi_tokensmash/mpi_tokensmash.c:328-400 | the tokens with their start edges, all dealt once, in account |
| TokenCycle.Dealer.Return | cbench/opensource/mpi_tokensmash/mpi_tokensmash.c:1248-1424 | a completed receive changes its own token, counts it and sends it on or finishes it; the accounts stay right |
| Receives.EdgeTakes | cbench/opensource/mpi_tokensmash/mpi_tokensmash.c:1432-1483 | an edge's receive that takes a message and is posted again brings the dealer's one place nearer to the front |
| Receives.DealerPosts | cbench/opensource/mpi_tokensmash/mpi_tokensmash.c:1352-1368 | a dealer posts its receive behind all those of its own EDGE roles |
| TokenSafety.ReturnKeeps | cbench/opensource/mpi_tokensmash/mpi_tokensmash.c:1213-1431 | a dealer's step keeps the invariants of all tokens, channels, posted receives and control words |
| TokenSafety.BounceKeeps | cbench/opensource/mpi_tokensmash/mpi_tokensmash.c:1432-1483 | so does an edge's step, also where the edge is the dealer itself |
| TokenSafety.NotifyKeeps | cbench/opensource/mpi_tokensmash/mpi_tokensmash.c:1527-1547 | so does a finished dealer's report |
| TokenSafety.HearKeeps | cbench/opensource/mpi_tokensmash/mpi_tokensmash.c:1593-1612 | rank 0 counts a dealer once, and only one that has reported |
| TokenSafety.RankZeroKeeps | cbench/opensource/mpi_tokensmash/mpi_tokensmash.c:1646-1661 | so do rank 0's own report and its exit |
| TokenSafety.ReleaseKeeps | cbench/opensource/mpi_tokensmash/mpi_tokensmash.c:1756-1768 | so does each word of the broadcast after the loop |
| TokenSafety.ShutdownKeeps | cbench/opensource/mpi_tokensmash/mpi_tokensmash.c:1493-1508 | so does the exit of another rank |
| TokenLedger.StepCounts | cbench/opensource/mpi_tokensmash/mpi_tokensmash.c:1188-1776 | every step takes exactly one off the measure and keeps the accounts: bytes sent equal received plus under way, and bounces made plus to come stay the same, for every rank |
| TokenTheorem.StartKeeps | cbench/opensource/mpi_tokensmash/mpi_tokensmash.c:1118-1154 | the state at the barrier meets the invariants |
| TokenTheorem.EveryToken | cbench/opensource/mpi_tokensmash/mpi_tokensmash.c:1118-1484 | in every state of every run a token is finished or in exactly one message, on its way out or back, nothing else travels under its tag, and a receive is posted for the message |
| TokenTheorem.EverySize | cbench/opensource/mpi_tokensmash/mpi_tokensmash.c:1234-1246 | every message received has the length of its token |
| TokenTheorem.EveryShutdown | cbench/opensource/mpi_tokensmash/mpi_tokensmash.c:1489-1776 | no rank is out of the main loop while a token of any dealer is unfinished or under way |
| TokenTheorem.Progress | cbench/opensource/mpi_tokensmash/mpi_tokensmash.c:1188-1776 | until all ranks have left, some step is enabled |
| TokenTheorem.EveryRun | cbench/opensource/mpi_tokensmash/mpi_tokensmash.c:1118-1776 | every run keeps invariants and accounts, and its length plus the measure left is a number fixed by the options |
| TokenTheorem.EveryRunCompletes | cbench/opensource/mpi_tokensmash/mpi_tokensmash.c:1118-1776 | every run that cannot go on has all ranks out, all tokens finished, each dealt once for every trip, each rank's bounces as its edges require (as many as deals where no rank is its own edge), no message left, all bytes received, and the same number of steps |
| TokenTheorem.LifeOfToken | cbench/opensource/mpi_tokensmash/mpi_tokensmash.c:1213-1483 | the bounces and steps of a token's whole life in closed form, for any number of self edges |
| TokenTheorem.ShareOfRank | cbench/opensource/mpi_tokensmash/mpi_tokensmash.c:1432-1483 | how many of a token's bounces each rank makes: count for each of its edge positions, once more for the start |
| Latency.StepKeeps | cbench/opensource/mpi_latency/mpi_latency.c:190-300 | every operation keeps the three roles in step |
| Latency.ReadyModeSafe | cbench/opensource/mpi_latency/mpi_latency.c:203-234 | at a ready-mode send the matching receive is posted and free, in the same trial |
| Latency.NoTruncation | cbench/opensource/mpi_latency/mpi_latency.c:241-284 | the message waited for has the posted length |
| Latency.Progress | cbench/opensource/mpi_latency/mpi_latency.c:203-299 | some rank can go on until all trials are done |
| Latency.RunTakes | cbench/opensource/mpi_latency/mpi_latency.c:252-299 | a rank ends one call of doit with each GO_ON it takes, and only so |
| Latency.EveryReadySend | cbench/opensource/mpi_latency/mpi_latency.c:138-300 | ready-mode sends are safe in every state of every run |
| Latency.EveryRun | cbench/opensource/mpi_latency/mpi_latency.c:138-300 | every run that cannot go on has done all trials, with one GO_ON for each rank and trial, and left no message |
| CrcTable.TableEntry | cbench/opensource/IMB/src/IMB_chk_diff.c:1294-1359 | each of the 256 table words is eight shifts of its index |
| CrcTable.ShiftXor | cbench/opensource/IMB/src/IMB_chk_diff.c:1268-1280 | the shift register is linear |
| Crc.TableStepAbsorbs | cbench/opensource/IMB/src/IMB_chk_diff.c:1384-1385 | the table step equals absorbing the byte's eight bits one by one, signed char or not |
| Crc.ComputeCrc | cbench/opensource/IMB/src/IMB_chk_diff.c:1363-1389 | the result is the bit-at-a-time CRC-32 of section 8 of RFC 1952 without its final complement, and 0 for an empty buffer |
| Crc.BurstDetected | cbench/opensource/IMB/src/IMB_chk_diff.c:1363-1389 | buffers of equal length that differ only within four consecutive bytes have different checksums |
| Crc.ShortChecksum | cbench/opensource/IMB/src/IMB_chk_diff.c:1204-1221 | up to four bytes are equal exactly when their checksums are |
| Crc.ChkContained | cbench/opensource/IMB/src/IMB_chk_diff.c:1194-1221 | the search succeeds exactly when the bytes occur, at their first place, with the results for the other cases |
| Contiguous.SortPortions | cbench/opensource/IMB/src/IMB_chk_diff.c:987-997 | the exchange sort in place keeps displacements and sizes together and orders them |
| Contiguous.CheckChain | cbench/opensource/IMB/src/IMB_chk_diff.c:999-1007 | 0 exactly when each portion begins where the ones before it end, or is empty |
| Contiguous.ChkContiguous | cbench/opensource/IMB/src/IMB_chk_diff.c:944-1007 | for non-negative sizes 0 exactly when the portions given, in any order, cover each position of the total exactly once |
| Contiguous.TilesWhenChained | cbench/opensource/IMB/src/IMB_chk_diff.c:987-1007 | the accepted chains of the sorted portions are the tilings of the original ones |
| Contiguous.PermutedTiles | cbench/opensource/IMB/src/IMB_chk_diff.c:987-1007 | tiling does not depend on the order of the portions |
| RankPortion.GetRankPortion | cbench/opensource/IMB/src/IMB_init.c:785-802 | the two branches and the clamp give the units of one formula |
| RankPortion.Balanced | cbench/opensource/IMB/src/IMB_init.c:785-800 | ranks differ by at most one unit, the first ranks having more |
| RankPortion.PortionsTile | cbench/opensource/IMB/src/IMB_init.c:746-804 | in rank order the non-empty portions cover [0, size) exactly once |
| RankPortion.NegativeSizes | cbench/opensource/IMB/src/IMB_init.c:793-802 | pos2 - pos1 + 1 is negative for no rank exactly when the unit divides the size or there are units for all ranks |
| RankPortion.AnyOrderPasses | cbench/opensource/IMB/src/IMB_init_transfer.c:134-136 | with the sizes clipped at 0, as they reach the check, the portions tile the buffer for every size, unit and number of ranks, in any order |
| RankPortion.SortedPasses | cbench/opensource/IMB/src/IMB_chk_diff.c:647-652 | in the order that the check sorts them into, they pass its final loop |
| ProcessMap.FillGrid | cbench/opensource/IMB/src/IMB_init.c:986-995 | on a grid that holds all processes the map is a permutation by columns; cells beyond the grid keep their content |
| ProcessMap.GridSuffices | cbench/opensource/IMB/src/IMB_init.c:986-995 | the fill makes a permutation of every previous content exactly when the grid holds all processes |
| ProcessMap.CountedPlace | cbench/opensource/IMB/src/IMB_init.c:986-995 | a map by columns gives each process the number of cells before its own, so all processes compute one map |
| ProcessMap.SetCommunicator | cbench/opensource/IMB/src/IMB_init.c:985-1019 | colour, key and group number of a process, the key in closed form |
| ProcessMap.KeysPermute | cbench/opensource/IMB/src/IMB_init.c:985-1000 | the keys that the processes compute are a permutation |
| ProcessMap.GroupsFormed | cbench/opensource/IMB/src/IMB_init.c:1001-1010 | with those keys exactly N div NP groups of exactly NP processes form, and N mod NP processes stay outside |
| ProcessMap.GroupSizes | cbench/opensource/IMB/src/IMB_init.c:1002-1010 | exactly N div NP groups of exactly NP processes in adjoining places |
| ProcessMap.Outsiders | cbench/opensource/IMB/src/IMB_init.c:1002-1010 | the N mod NP others belong to none |
| ProcessMap.SingleGroup | cbench/opensource/IMB/src/IMB_init.c:1011-1019 | without groups, min(NP, N) processes work together |
| Rings.RingsInRange | cbench/opensource/b_eff/b_eff.c:656-658 | every requested ring size leads to a number of rings from 1 to size/2 |
| Rings.RingsRequested | cbench/opensource/b_eff/b_eff.c:656-658 | it is the largest number that the requested size allows, with 0.4 added, but for those limits |
| Rings.EqualRings | cbench/opensource/b_eff/b_eff.c:656-681 | a requested size of two or more that divides the number of ranks is the size of every ring |
| Rings.LayoutFits | cbench/opensource/b_eff/b_eff.c:659-668 | that many rings, of two sizes that differ by one, at least 2 each and the even one first, make up all ranks |
| Rings.RingOfMember | cbench/opensource/b_eff/b_eff.c:674-681 | rings are blocks of neighbouring ranks that agree on their ring |
| Rings.NextAndPrev | cbench/opensource/b_eff/b_eff.c:682-687 | next and prev stay in the ring and undo each other, so every send has one receive |
| Rings.RingIsCycle | cbench/opensource/b_eff/b_eff.c:682-687 | passing on visits the whole ring and returns after one round |
| Rings.RingPattern | cbench/opensource/b_eff/b_eff.c:656-687 | what each rank computes for a requested ring size |
| RandomPattern.ProbeFindsFree | cbench/opensource/b_eff/b_eff.c:715-720 | the distance to a free slot shrinks, so the probe ends on one |
| RandomPattern.ProbeFindsNearest | cbench/opensource/b_eff/b_eff.c:715-720 | and on the nearest one, going forward |
| RandomPattern.RandomIsPermutation | cbench/opensource/b_eff/b_eff.c:714-720 | whatever the random starts, the ranks are a permutation |
| RandomPattern.RandomRanks | cbench/opensource/b_eff/b_eff.c:712-720 | the loops in place, each probe ending |
| RandomPattern.WorstRanks | cbench/opensource/b_eff/b_eff.c:722-728 | the worst case order is a permutation |
| RandomPattern.WorstAlternates | cbench/opensource/b_eff/b_eff.c:722-728 | that order takes the lowest and the highest rank left in turn |
| Rotate.Partners | cbench/opensource/rotate/rotate.c:92-104 | in each rotation the partner is in the other half and has the rank as its partner |
| Rotate.NextRotation | cbench/opensource/rotate/rotate.c:92-104 | the first rotation pairs ranks half the size apart, each next one moves the partner on by one |
| Rotate.TakingIs | cbench/opensource/rotate/rotate.c:66-72 | the largest even number of processes takes part |
| Rotate.MeetOnce | cbench/opensource/rotate/rotate.c:92-104 | over all rotations each lower and upper rank meet exactly once |
| Rotate.Destinations | cbench/opensource/rotate/rotate.c:66-104 | the destinations that a process computes, an odd last process aside |

## Left out

- Host lists: the `sort` option and `numerically_sorted` of the legacy program, its command line, and `invalid_hostnames` of the modern one.
- Host lists: Python's recursion limit, and characters outside ASCII that Python counts as digits or as space.  An expansion on which `expand_part` makes no progress is an error result here, for the recursion error of Python.
- LegacyTheorem.RoundTrip: names with a newline are not covered, because the pattern's dot and dollar treat newlines apart; collecting such a name may fail to match.
- LegacyExpand.ExpandRange: the largest stop of `xrange` is a parameter, because it is the platform's `sys.maxint`.
- ModernMeaning.LooseSpec: blanks beside the dash inside a range are not covered; `int` ignores them, but the width of the first number counts them.
- ModernRoundTrip.RoundTrip: hosts are non-empty names without comma, brackets or space at an end, the names that the program is for; a space at an end does not survive `strip`.
- mpi_tokensmash: wall-clock mode, statistics messages, progress output, the choice of token lengths, allocation and clean-up, and errors that MPI reports.
- mpi_tokensmash: the contents of the buffers and the integrity checks; messages are known by their length only.
- TokenMachine: a control check is modelled as separate steps in any order, which allows more runs than the program has; the send and the post of one test are one step.
- TokenMachine: receives posted for one channel are known by their kind, the dealer's or an EDGE role's, not by the number of the role.
- TokenTheorem.EveryRun: at most 255 tokens, and a star or a mesh with `xsize > 1`; both limits are exact for unique tags and for `xplus`.
- mpi_tokensmash: the wrap of 32-bit counters other than the cycle counter and the subtractions in `yminus` and `zminus`.
- Latency: sends complete at once (messages are small or buffered), and times and bandwidths are not computed.
- Crc.ChkContained: parts of whole elements are searched by floating-point comparison with a tolerance, which is not part of this model.
- IMB: `IMB_chk_distr`, `IMB_cmp_cat`, MPI-IO, the overflow of `int` products, and what MPI_Comm_split does with colours and keys.
- b_eff: floating-point rounding of the number of rings; every value in its range is covered by the ring lemmas.  Measurement, averaging and reports are left out.
- rotate: the message exchange itself and the reduction of times.
- mpi_routecheck, STREAM, OSU and the other benchmarks; the launchers, the database, the web tools and the templates.
