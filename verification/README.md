# Trace: the traceability engine, modelled and proved

A Dafny model of the parts of the Trace server that carry its traceability promises: the graph
of transactions, the claims attached to batches on that graph, the cached responses of the
consumer interface, validation tokens, and the bookkeeping around farmers, premiums, dashboards
and uploaded sheets. To verify: `dafny verify dfyconfig.toml`.

Tables are maps, sets or sequences of rows; objects the program updates in place are classes, and
each of their methods is tied to a function of the old state, about which the lemmas speak.

| file | what it models |
|---|---|
| `Digraph.dfy`, `Transactions.dfy` | the parent relation of transactions, its guarded updates, and the recursive queries |
| `Verifiers.dfy` | the system verifiers, which fold over root transactions |
| `Percentages.dfy` | the rounded, quantity-weighted percentage of inherited claims |
| `ClaimStates.dfy`, `FieldResponses.dfy`, `AttachedClaims.dfy` | statuses of claims and criteria, copying of field responses, and the objects that do both |
| `ClaimVersions.dfy` | new versions of claims, with their criteria and fields |
| `Patterns.dfy`, `FileCache.dfy`, `KeyNames.dfy`, `CacheContents.dfy` | key patterns, the cache and its index of keys, key names, and the keys in use |
| `Responses.dfy`, `Rebuilds.dfy`, `CacheHandlers.dfy` | building a response, which remembers transactions or raises; rebuilding many; and which cached responses are rebuilt for a batch |
| `Tokens.dfy` | validation tokens |
| `FarmerMerge.dfy`, `PremiumDedup.dfy` | the scripts that merge duplicate farmers and drop duplicate premiums |
| `NodeStats.dfy` | actor and invitation counts of a dashboard |
| `ExcelCells.dfy`, `ExcelRows.dfy`, `ExcelSheets.dfy` | validation of uploaded sheets: cells, rows, sheets |
| `Basics.dfy` | options and greatest elements |

## Where the code does less than it says

Each of these is proved by the lemmas named: the exact condition under which the code does what is
expected, and inputs for which it does not.

* A used token is not used for good: `refresh` is also called on invitations' tokens without asking
  whether they were used (fairtrace_v2/v2/supply_chains/models/profile.py:906,
  fairtrace_v2/v2/supply_chains/models/supply_chain.py:540). A token stays used exactly as long as no
  such refresh hits it, it can be accepted once more for every one that does, and that bound is
  reached; a user can also end up with two open tokens (`UsedIsTerminalExactly`,
  `AcceptedAtMostOnce`, `AcceptanceBoundIsReached`, `OperationsKeepOneOpenExactly`, `RefreshCanDouble`).
* `create_new_version` promises a claim with the same details, but the copy has no owners, supply
  chains and verifiers; it has the same details exactly when the old claim had none either
  (`CopyHasSameDetailsExactly`, `CopyCanLoseVerifiers`). Called on an older version it leaves a latest
  claim that no longer has the greatest version (`StepKeepsLatestGreatestExactly`,
  `LatestCanBeOutgrown`).
* A claim copied to a new batch takes over the percentage of its source, but `inherit_data` right
  afterwards makes it 100 when verifying a system criterion finds all criteria approved
  (`InheritedPercentageExactly`, `CopiedPercentageExactly`, `CopiedPercentageCanJump`).
* The final status of an inherited claim need not be the common one `inherit_data` has just stored:
  `verify` follows, and criteria that agree or an automatic approval overwrite it
  (`InheritThenVerifyExactly`, `FreshInheritThenVerify`, `InheritedStatusCanChange`).
* Calling `verify` again can change an automatic claim: exactly one whose first criteria, up to some
  point, are failing system criteria, whose later ones were all rejected before, and one of them is a
  system criterion that passes now (`VerifyMovesExactly`; by what the first call leaves,
  `VerifyIdempotentExactly`). Fresh claims never get there by one call; it takes a source that has
  changed since (`AutomaticClaimCanMove`). No caller makes that second call today: attaching a claim
  verifies it once (fairtrace_v2/v2/claims/serializers/product_claims.py:217), and later only the
  verifier of a claim gets it verified, which an automatic one does not have
  (fairtrace_v2/v2/claims/serializers/verification.py:199).
* Clearing the cache of a batch rebuilds its responses, but not the transactions behind them, which
  building a stage or map response remembers in the same cache
  (fairtrace_v2/v2/products/serializers/trace_operational.py:87-109): a rebuilt response is made from what
  was looked up when a response first asked, and is up to date exactly when that makes no difference
  (`RebuiltIsUpToDateExactly`, `RebuiltCanBeStale`). A rebuild can also cache a new key, when the theme
  settles on another language than that of the request (`RebuildInPlaceKeepsIndexExactly`,
  `RebuildCanGrow`), and a response that cannot be built, as when its theme is gone, leaves all
  later keys as they were (`RebuildRefreshes`).
* The search for a batch's cached responses also finds those of batches whose id begins with the same
  digits, so rebuilding batch 1 rebuilds batch 12 as well (`FindsLongerIds`).
* The merge of duplicate farmers deletes them, and the database follows all foreign keys: records
  that still refer to a deleted farmer through a column the merge leaves alone are lost
  (`MergeKeepsRecordsExactly`, `MergeCanLoseRecords`).
* Problems with the product id of an uploaded row count as the farmer's, although it is not farmer
  data (`ProductIdIsMisclassified`).

Two limits of the cache are proved as well, and that the program stays clear of them: keys with a
newline or the key "keys" itself break the index (`SetKeepsAgreementExactly`,
`DeleteKeepsAgreementExactly`), and a part with an underscore sends a rebuild to another key
(`KeyRoundTripExactly`, `LanguageIsCutShort`, `RebuildKeepsIndexExactly`). The keys in use are made
of primary keys and language codes, and no run ever caches another one (`KeysInUseAreProper`,
`IdKeysAreWellFormed`, `RunsStayClean`).

## Model

| member | source | states |
|---|---|---|
| Transactions.GuardIsExact | fairtrace_v2/common/models.py:168-174 | the cycle check is sound and complete: it lets an edge through iff the graph with the edge is acyclic |
| Transactions.RunsStayAcyclic | fairtrace_v2/common/models.py:83-100 | every run of the four updates from no edges keeps the graph acyclic, and on every such graph an addition links iff that closes no cycle |
| Transactions.AncestorsAndDescendantsConverse | fairtrace_v2/common/models.py:102-134 | on every graph a run can produce, y is above x iff x is below y, and never both above and below |
| Transactions.FilterNarrows | fairtrace_v2/common/models.py:116-127 | a batch filter gives a subset of the ancestors: those at the end of a parent path whose k-th transaction has a result among the k-fold batch parents of the filter |
| Transactions.FilterFollowsBatches | fairtrace_v2/common/models.py:116-134 | over the tables: a transaction passes a batch filter iff some parent path leads to it of which each transaction made a batch at the end of a chain of batch parents from the filter, as long as the path so far |
| Transactions.AncestorsUnfold | fairtrace_v2/common/models.py:116-134 | the path-based ancestors satisfy the recursion over selected parents, with the filter moved one generation up |
| Transactions.TransactionGraph.CircularChecker | fairtrace_v2/common/models.py:168-174 | a self link is refused as such, and otherwise one iff the child is beyond the parent; accepted iff the edge keeps the graph acyclic; its recursion ends because the graph is acyclic |
| Transactions.TransactionGraph.AddParent | fairtrace_v2/common/models.py:83-87 | the new edges, the error, acyclicity kept; the edge is refused iff it would close a cycle |
| Transactions.TransactionGraph.AddChild | fairtrace_v2/common/models.py:89-91 | the same, with the roles exchanged |
| Transactions.TransactionGraph.RemoveParent | fairtrace_v2/common/models.py:93-96 | exactly the one edge goes; acyclicity kept |
| Transactions.TransactionGraph.RemoveChild | fairtrace_v2/common/models.py:98-100 | exactly the one edge goes; acyclicity kept |
| Transactions.TransactionGraph.GetDescendants | fairtrace_v2/common/models.py:102-114 | terminates and returns exactly the transitive closure of the children relation |
| Transactions.TransactionGraph.GetAncestors | fairtrace_v2/common/models.py:116-134 | terminates and returns exactly the transitive closure of the parents, or with a filter the end points of batch paths |
| Transactions.TransactionGraph.GetLeafNodes | fairtrace_v2/common/models.py:136-148 | returns exactly the childless descendants-or-self, never none |
| Transactions.TransactionGraph.GetRootNodes | fairtrace_v2/common/models.py:150-162 | returns exactly the parentless ancestors-or-self, never none |
| Transactions.TransactionGraph.GetParentTransactions | fairtrace_v2/v2/transactions/models.py:297-317 | returns the internal ancestors-or-self, or the external ones neither reversed nor declined and an internal transaction itself |
| Digraph.CycleTestExact | fairtrace_v2/common/models.py:168-174 | over paths: a new edge keeps a graph acyclic iff its source is neither its target nor beyond it |
| Digraph.ClosureShrinks | fairtrace_v2/common/models.py:104-114 | why the recursive queries end: closures shrink along every edge of an acyclic graph |
| Digraph.EndsAreUnion | fairtrace_v2/common/models.py:150-162 | the roots of a node with parents are the union of its parents' roots, and there is one |
| Digraph.EndsUnaffected | fairtrace_v2/common/models.py:83-87 | linking a node outside ancestors-or-self changes neither ancestors nor roots |
| Verifiers.VerifyFarmer | fairtrace_v2/v2/claims/verifiers.py:338-364 | the loop over root transactions computes the farmer verdict, or raises where the source of an internal root is asked for |
| Verifiers.CheckFarmers | fairtrace_v2/v2/claims/verifiers.py:346-364 | the same for any list of root transactions, in their order |
| Verifiers.VerifyTraceableGuji | fairtrace_v2/v2/claims/verifiers.py:291-326 | the loop over root transactions computes the farmer-in-region verdict, or raises likewise |
| Verifiers.CheckGujiFarmers | fairtrace_v2/v2/claims/verifiers.py:300-326 | the same for any list of root transactions: flags, info and coordinates in step |
| Verifiers.VerifyWith | fairtrace_v2/v2/claims/models.py:804-809 | the verifier of a criterion is the one that runs |
| Verifiers.FoldExact | fairtrace_v2/v2/claims/verifiers.py:346-364 | over any list of roots: raises iff one is internal, passes iff all pass, has something to say iff it fails |
| Verifiers.VerdictExact | fairtrace_v2/v2/claims/verifiers.py:291-364 | the verdict at a transaction speaks of exactly its parentless ancestors-or-self; info is empty iff passed; one place per root |
| Verifiers.VerdictIsAboutFarms | fairtrace_v2/v2/claims/verifiers.py:291-364 | the farmer verifier passes iff all root transactions were made by farms, the region one iff all of these also lie in the region |
| Verifiers.InfoNamesFaults | fairtrace_v2/v2/claims/verifiers.py:300-364 | the info names exactly the sources of root transactions that are no farms, or outside the region |
| Verifiers.GoodPricePasses | fairtrace_v2/v2/claims/verifiers.py:264-275 | the good-price verifier passes at every transaction, with a text and no places |
| Verifiers.VerdictIsConjunction | fairtrace_v2/v2/claims/verifiers.py:291-364 | the verdict of a transaction with parents is the conjunction of its parents' verdicts, and it raises iff one of theirs does |
| Verifiers.PlacesNewestFirst | fairtrace_v2/v2/claims/verifiers.py:346-362 | the places in the evidence are those of the root transactions' sources, each root once, newest first |
| Verifiers.AssessLoneRoot | fairtrace_v2/v2/claims/verifiers.py:345-364 | the verdict at a transaction without parents is about that transaction alone |
| Verifiers.VerdictUnaffectedByOthers | fairtrace_v2/v2/claims/verifiers.py:291-364 | giving a parent to a transaction outside ancestors-or-self changes no verdict |
| Verifiers.DescendingHasAll | fairtrace_v2/common/models.py:73-76 | listing root transactions newest first loses none |
| Verifiers.DescendingIsSorted | fairtrace_v2/common/models.py:73-76 | and lists them by descending key, none twice |
| Percentages.RoundingError | fairtrace_v2/common/library.py:537-551 | rounding to hundredths is off by at most half of one and stays within 0 to 100 |
| Percentages.RoundsToHundredths | fairtrace_v2/common/library.py:549 | the rounded value is the nearest number of hundredths, an even one if two are equally near |
| Percentages.StoredIsCloseToExact | fairtrace_v2/v2/claims/models.py:650-669 | for any ancestry of claims, the stored percentage is within 0 to 100 and off the exact mean, weighted with quantities, by at most 0.005 per level of inheritance |
| Percentages.OneLevelIsClose | fairtrace_v2/v2/claims/models.py:650-669 | weighed from percentages set directly, the stored one is off the exact mean by at most 0.005 |
| Percentages.ComputeWeightedPercentage | fairtrace_v2/v2/claims/models.py:650-669 | the loop gives the rounded mean of the percentages weighted with quantities, batches without the claim counting as 0, and 0 when there is no quantity; it raises iff a source batch has two approved attachments of the claim |
| Percentages.SumsAreWeighted | fairtrace_v2/v2/claims/models.py:650-666 | the two sums of the loop are the sum of quantities and a hundredth of the sum of quantity times percentage |
| Percentages.AgreeingSourcesHandOn | fairtrace_v2/v2/claims/models.py:650-669 | sources that agree on a percentage hand it on, rounded; sources without a claim give 0 |
| Percentages.SharesOfQuantity | fairtrace_v2/v2/claims/models.py:657-664 | what one source batch adds, rounded or not, is part of its quantity, and the two are as close as its percentages |
| Percentages.SourcesExplain | fairtrace_v2/v2/claims/models.py:655-666 | the sums over source batches are those over the claims their percentages came from |
| Percentages.EveryRunStaysClose | fairtrace_v2/v2/claims/models.py:650-669 | the same bound for every claim after any run of percentages set and weighed, also when claims are weighed again |
| ClaimStates.PassSettles | fairtrace_v2/v2/claims/models.py:648-649 | after a pass system criteria stand where their verdicts do, manual ones follow a decided claim, and unanimous criteria have carried the claim along |
| ClaimStates.VerifySettles | fairtrace_v2/v2/claims/models.py:631-671 | one call of verify leaves criteria settled; unanimous criteria decide the claim, with 100 percent when approved; inherited claims get the weighted percentage |
| ClaimStates.VerifyIdempotentExactly | fairtrace_v2/v2/claims/models.py:631-682 | from every state, a second verify changes nothing iff the claim is not automatic, or was left approved, or its criteria agree |
| ClaimStates.VerifyMovesExactly | fairtrace_v2/v2/claims/models.py:631-682 | the same read off the claim before both calls: the second changes something iff the claim is automatic and some system criterion passes behind one up to which all are failing system criteria, all after it rejected before |
| ClaimStates.StaleRejectionMoves | fairtrace_v2/v2/claims/models.py:642-649 | how an automatic claim moves: a rejection that is no longer true rejects the claim in passing, and the next call approves it |
| ClaimStates.WaitingCriteriaHoldBack | fairtrace_v2/v2/claims/models.py:799-817 | on a fresh claim the check after every system criterion does nothing until the last criterion |
| ClaimStates.FreshVerify | fairtrace_v2/v2/claims/models.py:631-682 | verify of a fresh claim equals a reference without any mid-way check |
| ClaimStates.FreshVerifyIsIdempotent | fairtrace_v2/v2/claims/models.py:631-682 | verify of a fresh claim is idempotent, and criteria agreeing on a status hand it to the claim, with 100 percent when approved |
| ClaimStates.JudgedPass | fairtrace_v2/v2/claims/models.py:648-649 | a pass over criteria that stand where their verdicts do: when agreeing criteria overrule the claim, and which criteria follow it otherwise |
| ClaimStates.InheritThenVerifyExactly | fairtrace_v2/v2/claims/serializers/product_claims.py:213-217 | from any state, data taken over and then verified: the percentage is always the weighted one, and the status is still the sources' common one iff neither agreeing criteria nor automatic approval make it another |
| ClaimStates.FreshInheritThenVerify | fairtrace_v2/v2/claims/serializers/product_claims.py:204-217 | a claim just attached by inheritance: only agreeing system criteria decide it, else it is approved if automatic, else it has the sources' common status |
| ClaimStates.InheritedPercentageExactly | fairtrace_v2/v2/claims/models.py:684-708 | from any state, inherit_data leaves the percentage alone unless some system criterion finds all criteria approved, given by the state before; then it is 100 |
| ClaimStates.CopiedPercentageExactly | fairtrace_v2/v2/products/models.py:574-602 | a claim copied as approved loses its source's percentage to 100 iff the system criteria pass up to one that only approved criteria follow |
| ClaimStates.CopiedPercentageCanJump | fairtrace_v2/v2/products/models.py:574-602 | a copied claim that goes from 60 to 100 percent |
| FieldResponses.InheritExact | fairtrace_v2/v2/claims/models.py:773-797 | every row stays; one copy is added of each response with a text or a file that the same criterion has at a source batch and this one lacks, and nothing else |
| FieldResponses.FoundExact | fairtrace_v2/v2/claims/models.py:776-783 | the responses collected are those of the same criterion attached to a source batch |
| FieldResponses.FoundNewestFirst | fairtrace_v2/v2/claims/models.py:776-783 | responses are collected from the newest row to the oldest |
| FieldResponses.InheritAllCompletes | fairtrace_v2/v2/claims/models.py:688-689 | after all criteria of a claim inherited, each has every non-empty response of its sources, although later ones add rows |
| FieldResponses.InheritAllIsIdempotent | fairtrace_v2/v2/claims/models.py:688-689 | inheriting for all criteria a second time adds no response |
| AttachedClaims.FieldResponseTable.Inherit | fairtrace_v2/v2/claims/models.py:773-797 | the copying loop changes the table as specified |
| AttachedClaims.AttachedBatchClaim.CheckAndApprove | fairtrace_v2/v2/claims/models.py:673-682 | a single status among the criteria is taken over, with 100 percent when approved; otherwise nothing changes |
| AttachedClaims.AttachedBatchClaim.VerifyCriterion | fairtrace_v2/v2/claims/models.py:799-827 | verdict, info and evidence of a system criterion followed by the check of the claim; a manual one follows the decided claim; nothing has changed if the verifier raises |
| AttachedClaims.AttachedBatchClaim.VerifyCriteria | fairtrace_v2/v2/claims/models.py:648-649 | the loop, with the verdicts the graph gives, up to the first verifier that raises |
| AttachedClaims.AttachedBatchClaim.Verify | fairtrace_v2/v2/claims/models.py:631-671 | the whole new state of the claim, from the graph's verdicts and the source batches, also where an exception stops it; a new claim with manual criteria only waits iff a verifier, preset verifiers or a way of verification is given |
| AttachedClaims.AttachedBatchClaim.InheritData | fairtrace_v2/v2/claims/models.py:684-708 | nothing for claims not inherited; else responses copied and criteria verified in turn, up to the first that raises; without one, the common status of the sources or partial, whatever the criteria led to |
| AttachedClaims.AttachedBatchClaim.InheritCriteria | fairtrace_v2/v2/claims/models.py:689-690 | the loop: the status side up to the first verifier that raises, and the table of responses, into which that criterion's have been copied already |
| AttachedClaims.AttachedBatchClaim.InheritCriterion | fairtrace_v2/v2/claims/models.py:773-797 | responses of one criterion copied, then the criterion verified, which may raise |
| AttachedClaims.AttachedBatchClaim.CompleteAttachment | fairtrace_v2/v2/claims/serializers/product_claims.py:213-217 | an inherited claim takes over its sources' data, and then any claim is verified; an exception in either ends both |
| AttachedClaims.AutomaticClaimCanMove | fairtrace_v2/v2/claims/models.py:642-649 | with verdicts of the real verifiers, for every farm-to-be outside the region: rejected when attached, still rejected by the next call when the source has become a farm, approved by the one after |
| AttachedClaims.LoneSalesExist | fairtrace_v2/v2/claims/verifiers.py:291-326 | such a source and such criteria exist |
| AttachedClaims.NothingStopsVerify | fairtrace_v2/v2/claims/models.py:648-671 | verify reaches its end iff no verifier of a criterion raises and, for an inherited claim, no source batch has two approved attachments |
| AttachedClaims.GoodPriceIsApproved | fairtrace_v2/v2/claims/verifiers.py:264-275 | a new claim with good-price criteria only is approved with all its criteria and 100 percent by one verify, whatever the batch |
| AttachedClaims.ManualVerified | fairtrace_v2/v2/claims/models.py:642-649 | a new claim with manual criteria only stays as it is if somebody is to verify it, and else is approved with all its criteria |
| AttachedClaims.OutcomeAt | fairtrace_v2/v2/claims/models.py:799-817 | verifying some criteria does not change what the verifiers of the others say |
| AttachedClaims.InheritedStatusCanChange | fairtrace_v2/v2/claims/serializers/product_claims.py:213-217 | two sales, one by a farm, made into one batch: the claim is approved at the farm's batch, taken over as approved, and ends up rejected |
| AttachedClaims.FarmAndOtherExist | fairtrace_v2/v2/claims/serializers/product_claims.py:213-217 | such transactions and such a claim exist |
| ClaimVersions.StepKeepsVersionsDistinct | fairtrace_v2/v2/claims/models.py:145-150 | a call keeps versions of a reference pairwise distinct |
| ClaimVersions.StepKeepsOneLatest | fairtrace_v2/v2/claims/models.py:148-153 | a call keeps exactly one latest claim per reference |
| ClaimVersions.StepKeepsLatestGreatestExactly | fairtrace_v2/v2/claims/models.py:145-153 | the latest claim has the greatest version after a call iff the call was made on the latest claim |
| ClaimVersions.LatestCanBeOutgrown | fairtrace_v2/v2/claims/models.py:145-153 | a call on an older version leaves a latest claim without the greatest version |
| ClaimVersions.CopyHasSameDetailsExactly | fairtrace_v2/v2/claims/models.py:136-150 | apart from its version the copy equals the old claim in every column, and in its relations iff the old claim had no owners, supply chains and verifiers |
| ClaimVersions.CopyCanLoseVerifiers | fairtrace_v2/v2/claims/models.py:148-150 | a claim with a preset verifier whose new version has none |
| ClaimVersions.StepHandsOnActive | fairtrace_v2/v2/claims/models.py:146-153 | the old claim is active and latest no more and the copy is what the old one was, so a reference keeps its number of active claims |
| ClaimVersions.RunsKeepActive | fairtrace_v2/v2/claims/models.py:132-169 | the number of active claims of a reference is the same after every run |
| ClaimVersions.NewVersionIsWhole | fairtrace_v2/v2/claims/models.py:154-168 | every criterion of the old claim and every field of these has exactly one copy with the same content in the new version, and nothing else is added |
| ClaimVersions.RunsKeepVersions | fairtrace_v2/v2/claims/models.py:132-169 | versions distinct and one latest, after every run on any claims |
| ClaimVersions.RunsOnLatestKeepItGreatest | fairtrace_v2/v2/claims/models.py:132-169 | in runs on latest claims the latest one always has the greatest version |
| ClaimVersions.ClaimTables.CreateNewVersion | fairtrace_v2/v2/claims/models.py:132-169 | the new claim row and the retired one; every criterion and every field copied once, under the right copy, criterion versions above all earlier ones of the reference; all older rows as they were |
| ClaimVersions.ClaimTables.CopyClaim | fairtrace_v2/v2/claims/models.py:143-153 | a copy with the next version appears and the old claim is neither active nor latest |
| ClaimVersions.ClaimTables.CopyCriterion | fairtrace_v2/v2/claims/models.py:154-168 | one criterion and its fields copied, nothing else touched |
| ClaimVersions.ClaimTables.CopyFields | fairtrace_v2/v2/claims/models.py:164-168 | every field of a criterion copied once, under the copy |
| Patterns.PatternIsGlob | fairtrace_v2/common/cache.py:13-19 | the compiled expression matches a key iff filling the stars of the pattern with one-line texts gives the key |
| Patterns.StarMatches | fairtrace_v2/common/cache.py:13-19 | the lone star matches exactly the keys on one line |
| FileCache.SetKeepsAgreementExactly | fairtrace_v2/common/cache.py:21-27 | index and store still agree after set iff the key is on one line and not "keys" |
| FileCache.SetProperKey | fairtrace_v2/common/cache.py:21-27 | a proper key is stored and goes once to the end of the index; other values stay |
| FileCache.DeleteKeepsAgreement | fairtrace_v2/common/cache.py:29-35 | the key leaves store and index, all else stays |
| FileCache.DeleteKeepsAgreementExactly | fairtrace_v2/common/cache.py:29-35 | index and store still agree after delete iff the key is not "keys" or nothing was cached |
| FileCache.DeleteManyKeepsAgreement | fairtrace_v2/v2/dashboard/cache_handlers.py:115 | deleting many keys takes exactly these from the index |
| FileCache.RunsKeepAgreement | fairtrace_v2/common/cache.py:11-35 | after every run of proper operations keys("*") lists each live key once and nothing else, and keys(p) is the glob-matching sublist in index order |
| FileCache.FileBasedCacheOperational.Keys | fairtrace_v2/common/cache.py:11-19 | the keys of the index that the compiled pattern matches, in order |
| FileCache.FileBasedCacheOperational.Set | fairtrace_v2/common/cache.py:21-27 | the new store, and when it still agrees with its index |
| FileCache.FileBasedCacheOperational.Delete | fairtrace_v2/common/cache.py:29-35 | the new store, and when it still agrees with its index |
| FileCache.FileBasedCacheOperational.DeleteMany | fairtrace_v2/v2/dashboard/cache_handlers.py:115 | the keys are deleted one after the other |
| KeyNames.JoinOfSplit | fairtrace_v2/v2/dashboard/cache_handlers.py:80 | joining what split("_") gives restores the key |
| KeyNames.SplitOfJoin | fairtrace_v2/v2/dashboard/cache_handlers.py:29-34 | split("_") restores the joined parts iff none has an underscore; otherwise there are more parts |
| KeyNames.RebuildsInPlaceExactly | fairtrace_v2/v2/dashboard/cache_handlers.py:78-85 | the key a rebuild writes is the one it was given iff that has four parts, the first being the prefix |
| KeyNames.KeyRoundTripExactly | fairtrace_v2/v2/dashboard/cache_handlers.py:53-85 | a built key is rebuilt as itself, from its own batch, theme and language, iff none of these has an underscore |
| KeyNames.LanguageIsCutShort | fairtrace_v2/v2/dashboard/cache_handlers.py:80-85 | a limit of the format: a language part with one underscore would be rebuilt under the key of what stands before it |
| KeyNames.IdKeysAreWellFormed | fairtrace_v2/v2/products/views/trace.py:104-128 | keys of primary keys and a language code split into their own parts and are rebuilt in place |
| CacheContents.KeysInUseAreProper | fairtrace_v2/v2/products/serializers/trace_operational.py:87-109 | none of the keys in use is "keys" or has a newline |
| CacheContents.KeysInUseAreClean | fairtrace_v2/v2/products/views/trace.py:104-128 | a key in use that begins like a response key is one, and can be rebuilt in place |
| CacheContents.RunsStayClean | fairtrace_v2/v2/products/views/trace.py:100-128 | after every run of the program the cache agrees with its index and every key under a served prefix can be rebuilt in place |
| Responses.BuildingKeepsCache | fairtrace_v2/v2/products/serializers/trace_operational.py:87-109 | building a response changes no cached value and adds at most the key by which it remembers transactions, whether or not it raises |
| Responses.MemoKeyText | fairtrace_v2/v2/products/serializers/trace_operational.py:87-91 | the key transactions are remembered by: source transaction, a fixed middle, language |
| Responses.AnswerIsCurrentExactly | fairtrace_v2/v2/products/serializers/trace_operational.py:93-104 | a response is the one for the transactions as they are now iff none were remembered for its key or these make no difference |
| Responses.MemoKeyIsNoResponse | fairtrace_v2/v2/products/serializers/trace_operational.py:87-91 | transactions are never remembered under the key of a response |
| Rebuilds.FailureStops | fairtrace_v2/v2/dashboard/cache_handlers.py:76-113 | after a key that fails no other is touched |
| Rebuilds.StepKeepsAgreement | fairtrace_v2/v2/dashboard/cache_handlers.py:78-111 | rebuilding any key on one line adds to the index just the keys it really writes |
| Rebuilds.RebuildKeepsIndexExactly | fairtrace_v2/v2/dashboard/cache_handlers.py:76-113 | rebuilding any keys only adds to the index, and keeps it iff every key really written, response or remembered transactions, was cached |
| Rebuilds.RebuildRefreshes | fairtrace_v2/v2/dashboard/cache_handlers.py:76-113 | rebuilding keys in place: each key done holds the response of its own parts, all other cached values stay, and the rebuild stops exactly at the first key whose response cannot be built |
| Rebuilds.RebuildRemembers | fairtrace_v2/v2/products/serializers/trace_operational.py:87-109 | new in the index are exactly the names by which the keys asked remember transactions, and each holds what was looked up for the first to ask |
| Rebuilds.RebuildInPlaceKeepsIndexExactly | fairtrace_v2/v2/dashboard/cache_handlers.py:76-113 | rebuilding keys in place keeps the index iff all names under which the keys asked remember transactions were cached |
| Rebuilds.RebuildKeepsKeysInUse | fairtrace_v2/v2/dashboard/cache_handlers.py:76-113 | a rebuild in place leaves only keys in use, so that the keys under a prefix can be rebuilt in place again |
| Rebuilds.RebuiltIsUpToDateExactly | fairtrace_v2/v2/products/serializers/trace_operational.py:93-104 | a rebuilt response is up to date if it needs no transactions or is the first to remember them; where they were remembered before, iff these give the same answer |
| Rebuilds.RebuildCanGrow | fairtrace_v2/v2/products/serializers/trace_operational.py:69 | a response cached in one language and rebuilt for a theme that settles on another leaves one key more |
| Rebuilds.RebuiltCanBeStale | fairtrace_v2/v2/products/serializers/trace_operational.py:93-96 | a rebuild after which the response still shows the transactions remembered before they changed |
| CacheHandlers.NoKeyMissed | fairtrace_v2/v2/dashboard/cache_handlers.py:36-40 | the keys found for a batch include every cached key built for it |
| CacheHandlers.MatchesExactly | fairtrace_v2/v2/dashboard/cache_handlers.py:36-40 | the keys found for a batch are exactly the cached ones beginning with prefix and batch |
| CacheHandlers.FindsLongerIds | fairtrace_v2/v2/dashboard/cache_handlers.py:36-40 | the search for the keys of a batch also finds those of batches whose id begins with the same digits |
| CacheHandlers.CollectedAreWellFormed | fairtrace_v2/v2/dashboard/cache_handlers.py:165-172 | where the keys under the prefix can be rebuilt in place, so can all collected ones |
| CacheHandlers.RebuildIsFresh | fairtrace_v2/v2/dashboard/cache_handlers.py:76-113 | rebuilding the collected keys adds to the index just the keys written; where those under the prefix can be rebuilt in place, other values stay, it stops exactly at the first response that cannot be built, and without one every cached response of the batches is its own fresh one |
| CacheHandlers.RequestedExactly | fairtrace_v2/v2/dashboard/cache_handlers.py:157-172 | the batches asked about: the batch alone when parents are ignored, and else those whose source transaction is its own, internal or shown, or a shown one at the end of a path of parents |
| CacheHandlers.AfterRebuild | fairtrace_v2/v2/dashboard/cache_handlers.py:157-175 | in terms of the tables: with parents ignored no value changes but under keys beginning with prefix and batch; otherwise, if nothing raises, every cached response of a related batch is fresh |
| CacheHandlers.IdsArePlain | fairtrace_v2/v2/products/views/trace.py:104-110 | primary keys have no character that is special in patterns |
| CacheHandlers.ThemeCacheHandler.GetCachedKeys | fairtrace_v2/v2/dashboard/cache_handlers.py:36-40 | the keys matching prefix and batch |
| CacheHandlers.ThemeCacheHandler.ParentTransactions | fairtrace_v2/v2/products/serializers/trace_operational.py:87-110 | remembered transactions are answered if there are any; otherwise those looked up, which are remembered |
| CacheHandlers.ThemeCacheHandler.BuildResponse | fairtrace_v2/v2/dashboard/cache_handlers.py:42-47 | the response, or an exception, and what is remembered afterwards |
| CacheHandlers.ThemeCacheHandler.BuildResponseCache | fairtrace_v2/v2/dashboard/cache_handlers.py:49-60 | a non-empty cached response is answered unless rebuilding; otherwise one is built and stored, or nothing stored if building raises; transactions it needed are remembered either way |
| CacheHandlers.ThemeCacheHandler.ClearResponseCache | fairtrace_v2/v2/dashboard/cache_handlers.py:62-116 | all keys deleted, or rebuilt in turn up to the first that raises, for having fewer than four parts or a response that cannot be built |
| CacheHandlers.ThemeCacheHandler.RebuildKey | fairtrace_v2/v2/dashboard/cache_handlers.py:78-111 | one key rebuilt from its parts, with the transactions it remembers, or which of the two failures happened |
| CacheHandlers.ThemeCacheHandler.ClearCiCache | fairtrace_v2/v2/dashboard/cache_handlers.py:142-175 | the three early answers change nothing; the keys to rebuild are exactly those found for the requested batches, and the index gains just the keys written; if the cached keys under the prefix can be rebuilt in place beforehand, the rebuild ends for all keys or exactly at the first response that cannot be built, in the first case every cached response of every batch with a related source transaction, or of the one batch if parents are ignored, is its own, built from the transactions remembered; other values stay, and the index does iff what the keys asked remember was cached |
| CacheHandlers.ThemeCacheHandler.KeysToRebuild | fairtrace_v2/v2/dashboard/cache_handlers.py:157-172 | the keys collected are exactly those found for the batches whose source transaction is a shown ancestor-or-self |
| CacheHandlers.ThemeCacheHandler.CollectKeys | fairtrace_v2/v2/dashboard/cache_handlers.py:168-170 | the keys of several batches: all that are found for one of them and no others |
| Tokens.FreeKey | fairtrace_v2/v2/accounts/models.py:448-463 | the key is among the draws and not in use by an unused token of the type |
| Tokens.FreeKeyIsFirst | fairtrace_v2/v2/accounts/models.py:448-463 | the key is the first one drawn that no unused token of the type has |
| Tokens.OperationsKeepDistinctKeys | fairtrace_v2/v2/accounts/models.py:448-540 | every operation keeps keys of unused tokens of a type distinct |
| Tokens.OperationsKeepOneOpenExactly | fairtrace_v2/v2/accounts/models.py:490-540 | one unused token per user, type and creator is kept by every operation but a direct refresh of a used token whose owner has an open one |
| Tokens.InitializeSucceeds | fairtrace_v2/v2/accounts/models.py:505-514 | under one open token per owner, initialize finds or makes the owner's token, unused and valid for the full period |
| Tokens.RefreshExactly | fairtrace_v2/v2/accounts/models.py:489-498 | a refresh keeps the key of a token that is unused and not expired, and gives any other a key no unused token of the type has; owner kept, unused, full period from now, other tokens untouched |
| Tokens.InitializeKeepsKey | fairtrace_v2/v2/accounts/models.py:505-514 | initialize answers with the open token of the owner, with the key it had while it can still be used, and adds none |
| Tokens.InitializeAdds | fairtrace_v2/v2/accounts/models.py:505-514 | without an open token of the owner one is added, unused, with a key no unused token of the type has |
| Tokens.Periods | fairtrace_v2/v2/accounts/constants.py:48-56 | one day for one-time passwords, two for resets and magic logins, a year for the rest |
| Tokens.RunsKeepTokens | fairtrace_v2/v2/accounts/models.py:448-540 | in every run keys stay distinct, and at most one token per owner is open if no refresh doubles one |
| Tokens.AcceptedAtMostOnce | fairtrace_v2/v2/accounts/models.py:465-476 | in every run validate accepts a token at most once, plus once for every revival by a direct refresh |
| Tokens.AcceptanceBoundIsReached | fairtrace_v2/v2/accounts/models.py:465-498 | for every number of revivals a run accepts a token once more than that |
| Tokens.UsedStaysUsedExactly | fairtrace_v2/v2/accounts/models.py:465-540 | a used token stays used under an operation iff that is not a direct refresh of it |
| Tokens.UsedIsTerminalExactly | fairtrace_v2/v2/accounts/models.py:465-540 | over any run, a used token stays used iff no direct refresh has revived it |
| Tokens.RefreshCanDouble | fairtrace_v2/v2/supply_chains/models/profile.py:906 | refreshing a used invitation token can leave two open ones |
| Tokens.TokenTable.GenerateUniqueKey | fairtrace_v2/v2/accounts/models.py:448-463 | draws again while the key is in use |
| Tokens.TokenTable.Refresh | fairtrace_v2/v2/accounts/models.py:489-498 | an invalid token gets a free key and is unused again, a valid one keeps its key; the expiry moves |
| Tokens.TokenTable.Validate | fairtrace_v2/v2/accounts/models.py:465-476 | accepted iff it was valid; used afterwards either way |
| Tokens.TokenTable.MarkAsUsed | fairtrace_v2/v2/accounts/models.py:500-503 | used afterwards, nothing else changed |
| Tokens.TokenTable.Invalidate | fairtrace_v2/v2/accounts/models.py:535-540 | used and expired afterwards |
| Tokens.TokenTable.Initialize | fairtrace_v2/v2/accounts/models.py:505-514 | the open token refreshed, or a new one; an error iff several are open |
| FarmerMerge.MainsStay | fairtrace_v2/scripts/remove_duplicate_farmers.py:132-135 | the smallest key of a group is never removed |
| FarmerMerge.TargetsStay | fairtrace_v2/scripts/remove_duplicate_farmers.py:132-147 | farmers are merged into farmers that stay |
| FarmerMerge.NothingLeftBehind | fairtrace_v2/scripts/remove_duplicate_farmers.py:100-109 | after relinking no record of the four relations belongs to a removed farmer: the "not merged" branch is unreachable |
| FarmerMerge.MergeKeepsRecordsExactly | fairtrace_v2/scripts/remove_duplicate_farmers.py:100-113 | all four relations keep their number of records iff no record is tied to a removed farmer through the columns the merge leaves alone |
| FarmerMerge.TransactionsLostExactly | fairtrace_v2/scripts/remove_duplicate_farmers.py:100-113 | a transaction is lost iff a column the merge leaves alone, or the wallet it is moved to, ties it to a removed farmer |
| FarmerMerge.PaymentLostExactly | fairtrace_v2/scripts/remove_duplicate_farmers.py:100-113 | a payment is lost iff it is tied itself or its transaction is lost |
| FarmerMerge.BatchLostExactly | fairtrace_v2/scripts/remove_duplicate_farmers.py:100-113 | a batch is lost iff it is tied itself or its source transaction is lost |
| FarmerMerge.MergeCanLoseRecords | fairtrace_v2/scripts/remove_duplicate_farmers.py:84-86 | an internal transaction whose wallet is the duplicate's is lost |
| FarmerMerge.UntiedMergeOnlyMoves | fairtrace_v2/scripts/remove_duplicate_farmers.py:70-113 | without ties the outcome is the relinked tables |
| FarmerMerge.RelinkedColumns | fairtrace_v2/scripts/remove_duplicate_farmers.py:70-104 | column by column: records of merged farmers get the farmer merged into, their sales and batches the wallet, and nothing else changes |
| FarmerMerge.PlanExactly | fairtrace_v2/scripts/remove_duplicate_farmers.py:115-147 | a farmer is merged into another iff that one has the smallest key of his group, another one than his, and he sold to nobody but its last buyer |
| FarmerMerge.WritingChangesRelinks | fairtrace_v2/scripts/remove_duplicate_farmers.py:100-104 | writing the collected rows moves exactly the records of removed duplicates and touches no other |
| FarmerMerge.ChangesAddUp | fairtrace_v2/scripts/remove_duplicate_farmers.py:137-147 | collecting group by group gives the changes of all groups together |
| FarmerMerge.FarmerRecords.RemoveDuplicates | fairtrace_v2/scripts/remove_duplicate_farmers.py:124-150 | exactly the duplicates that sold to their main farmer's last buyer only are removed, their records moved to the smallest key of the group, nothing points at them afterwards; without a buyer nothing changes |
| FarmerMerge.FarmerRecords.CollectChanges | fairtrace_v2/scripts/remove_duplicate_farmers.py:124-147 | the loop over groups plans exactly the removable duplicates and their changed rows |
| FarmerMerge.FarmerRecords.CollectGroup | fairtrace_v2/scripts/remove_duplicate_farmers.py:132-147 | one group more planned and its rows collected |
| FarmerMerge.FarmerRecords.MergeItems | fairtrace_v2/scripts/remove_duplicate_farmers.py:70-98 | the four lists of rows of the duplicates, changed to the main farmer |
| FarmerMerge.FarmerRecords.MergeExternal | fairtrace_v2/scripts/remove_duplicate_farmers.py:80-83 | source and source wallet change, and only these |
| FarmerMerge.FarmerRecords.MergeInternal | fairtrace_v2/scripts/remove_duplicate_farmers.py:84-86 | the node changes, and only it |
| FarmerMerge.FarmerRecords.MergePayments | fairtrace_v2/scripts/remove_duplicate_farmers.py:87-89 | the destination changes, and only it |
| FarmerMerge.FarmerRecords.MergeBatches | fairtrace_v2/scripts/remove_duplicate_farmers.py:90-93 | node and node wallet change, and only these |
| FarmerMerge.FarmerRecords.ProcessMerge | fairtrace_v2/scripts/remove_duplicate_farmers.py:100-113 | rows written; then nothing, if a record is left behind, or the farmers deleted with all that refers to them |
| PremiumDedup.Deduplicate | fairtrace_v2/scripts/premium_earned_unique_togthr_script.py:5-13 | although rows go from the list being iterated, none is removed twice, every survivor is visited, and the survivors are the first rows of the classes in order |
| PremiumDedup.RemoveDuplicates | fairtrace_v2/scripts/premium_earned_unique_togthr_script.py:10-13 | all rows of the class but the first go, each of them still listed when its turn comes |
| PremiumDedup.NextIsFirst | fairtrace_v2/scripts/premium_earned_unique_togthr_script.py:6-9 | the row visited next is always the first of its class |
| PremiumDedup.FirstsHoldEveryClass | fairtrace_v2/scripts/premium_earned_unique_togthr_script.py:5-13 | no class is lost |
| PremiumDedup.FirstsHoldNoClassTwice | fairtrace_v2/scripts/premium_earned_unique_togthr_script.py:5-13 | no class is there twice |
| PremiumDedup.FirstsAreRows | fairtrace_v2/scripts/premium_earned_unique_togthr_script.py:5-13 | no row is made up |
| PremiumDedup.FirstsExactly | fairtrace_v2/scripts/premium_earned_unique_togthr_script.py:5-13 | an earning stays iff no earlier one has the same farmer, premium and transaction |
| NodeStats.Network.CompaniesArePartitioned | fairtrace_v2/v2/dashboard/models.py:735-764 | every distinct company is in exactly one of mapped, pending and active |
| NodeStats.Network.PartsExactly | fairtrace_v2/v2/dashboard/models.py:728-764 | who counts as mapped, pending, active, supplier and farmer, by type, chain, invitations within the chains, e-mail and joining |
| NodeStats.Network.PartsAddUp | fairtrace_v2/v2/dashboard/models.py:755-764 | the three sizes add up to the number of companies, whatever the chains and invitations |
| NodeStats.Network.SuppliersAddUpExactly | fairtrace_v2/v2/dashboard/models.py:732-733 | supplying companies and farmers add up to the suppliers iff no supplier is a verifier or unknown |
| NodeStats.Network.ChainCountsOnce | fairtrace_v2/v2/dashboard/models.py:725-733 | an actor that both supplies and buys is counted once although it is in both id lists, and companies and farmers are never more than the suppliers |
| NodeStats.Network.QueriesGiveParts | fairtrace_v2/v2/dashboard/models.py:735-758 | the counts of the invitation queries are sums of parts |
| NodeStats.Stats.UpdateValues | fairtrace_v2/v2/dashboard/models.py:725-766 | every count is the size of the set it is named after, so none is negative; actors in both chains count once; invited is active plus pending; the subtractions give the partition |
| NodeStats.Stats.CountInvitations | fairtrace_v2/v2/dashboard/models.py:740-764 | the four invitation counts, from the counts of the three queries |
| ExcelCells.ChecksAreConsistent | fairtrace_v2/common/excel_templates/cells.py:84-149 | for every kind of cell: valid iff the value suits, iff there is no message, iff there is no issue; one issue otherwise, of one class, which is that of the data unless the heading is the product id |
| ExcelCells.ProductIdIsMisclassified | fairtrace_v2/common/excel_templates/cells.py:84-115 | an issue's class disagrees with the kind of data iff the heading is the product id |
| ExcelCells.ComplaintsExact | fairtrace_v2/common/excel_templates/cells.py:117-560 | each complaint is made exactly where the value, its kind and its limits deserve it |
| ExcelCells.MandatoryExactly | fairtrace_v2/common/excel_templates/cells.py:117-149 | a mandatory cell is complained of as such iff it holds nothing, an empty text or a zero |
| ExcelCells.CombinationIsNew | fairtrace_v2/common/excel_templates/cells.py:474-483 | the cell made for a joined value counts as new and complains of a blank |
| ExcelCells.Cell.ValidateBase | fairtrace_v2/common/excel_templates/cells.py:117-149 | status, and one complaint iff a mandatory value is missing |
| ExcelCells.Cell.ValidateAlpha | fairtrace_v2/common/excel_templates/cells.py:152-163 | raises for a value that is not text, also an optional missing one; an empty optional text is refused |
| ExcelCells.Cell.ValidateChar | fairtrace_v2/common/excel_templates/cells.py:176-192 | refused iff missing though mandatory, or unprintable |
| ExcelCells.Cell.ValidateNumber | fairtrace_v2/common/excel_templates/cells.py:195-217 | checked after dropping blanks, which changes the cell's value even if refused; the decimal cell at lines 293-315 likewise |
| ExcelCells.Cell.ValidateDay | fairtrace_v2/common/excel_templates/cells.py:255-290 | refused for a bad format or a day outside the limits; still one issue for two complaints |
| ExcelCells.Cell.ValidateChoice | fairtrace_v2/common/excel_templates/cells.py:334-350 | refused iff missing though mandatory or not among the choices |
| ExcelCells.Cell.ValidateDialCode | fairtrace_v2/common/excel_templates/cells.py:513-522 | as a choice, but a dial code that is not text raises |
| ExcelCells.Cell.ValidateEmail | fairtrace_v2/common/excel_templates/cells.py:363-378 | as text, then the address is checked unless optional and blank |
| ExcelCells.Cell.ValidatePhoneNumber | fairtrace_v2/common/excel_templates/cells.py:390-403 | the number is checked even when optional and blank |
| ExcelCells.Cell.ValidateDependantChoice | fairtrace_v2/common/excel_templates/cells.py:424-450 | refused unless allowed for the selection, even when optional and blank; raises without a selection |
| ExcelCells.Cell.ValidateCombination | fairtrace_v2/common/excel_templates/cells.py:474-483 | the check is that of a new mandatory cell with the joined value; raises for kinds that need more than a heading |
| ExcelCells.Cell.ValidatePhone | fairtrace_v2/common/excel_templates/cells.py:496-510 | refused iff a number is there and has other characters than digits |
| ExcelCells.Cell.ValidateCurrency | fairtrace_v2/common/excel_templates/cells.py:528-542 | as text, then refused unless it is one of the currencies, if there is one |
| ExcelCells.Cell.ValidateCountry | fairtrace_v2/common/excel_templates/cells.py:548-560 | as a choice, then the country is checked if there is one |
| ExcelCells.Cell.Validate | fairtrace_v2/common/excel_templates/cells.py:117-560 | whichever class the cell has: the whole check, and the value afterwards |
| ExcelRows.SumsCountInvalid | fairtrace_v2/common/excel_templates/excel.py:79-98 | the three running totals count the invalid cells, in all and by class |
| ExcelRows.RowCountsIssues | fairtrace_v2/common/excel_templates/excel.py:71-109 | total is the number of invalid cells and the sum of both classes; the row is valid iff it is zero, iff every cell accepts its value, iff there is no message |
| ExcelRows.RowWithoutFields | fairtrace_v2/common/excel_templates/excel.py:71-109 | a row without fields is valid, unchanged and without issues |
| ExcelRows.MessagesInOrder | fairtrace_v2/common/excel_templates/excel.py:79-98 | messages are strung together in the order of the fields |
| ExcelRows.ExcelRow.ValidateField | fairtrace_v2/common/excel_templates/excel.py:80-86 | a dependent choice sees its selection as validated so far |
| ExcelRows.ExcelRow.Validate | fairtrace_v2/common/excel_templates/excel.py:71-109 | the whole row check, and which values have changed, also when a cell raises |
| ExcelRows.StatusOfRow | fairtrace_v2/common/excel_templates/excel.py:100-105 | changed iff some field is, new iff there are fields and all are new, else unchanged |
| ExcelSheets.SheetValidExactly | fairtrace_v2/common/excel_templates/excel.py:208-244 | a sheet is valid iff every cell of every row and every field outside the rows accepts its value |
| ExcelSheets.SheetIsWhole | fairtrace_v2/common/excel_templates/excel.py:208-244 | a sheet raises only if a row or field does; otherwise its result holds every row's and field's check in order, their number and messages, and is changed or unchanged by its own fields, new if there are none |
| ExcelSheets.RowMessagesInOrder | fairtrace_v2/common/excel_templates/excel.py:213-218 | messages are strung together in the order of the rows |
| ExcelSheets.Excel.ValidateRow | fairtrace_v2/common/excel_templates/excel.py:214-218 | one row checked, the others untouched |
| ExcelSheets.Excel.ValidateRows | fairtrace_v2/common/excel_templates/excel.py:214-218 | the checks of all rows, or an exception iff one raises |
| ExcelSheets.Excel.ValidateField | fairtrace_v2/common/excel_templates/excel.py:220-222 | one field outside the rows checked, without a selection |
| ExcelSheets.Excel.ValidateFields | fairtrace_v2/common/excel_templates/excel.py:220-227 | the checks of all fields outside the rows |
| ExcelSheets.Excel.Validate | fairtrace_v2/common/excel_templates/excel.py:208-244 | the whole result: validity, messages, count, checks and status |

## Left out

- FieldResponses.InheritAllIsIdempotent: asks that the batch is not one of its own source batches; otherwise copies are sources again.
- Tokens.AcceptedAtMostOnce: not flatly at most once, since the program refreshes used tokens elsewhere; the bound counts these revivals, and `AcceptanceBoundIsReached` shows it cannot be lower.
- Tokens.TokenTable.GenerateUniqueKey: random keys are a given sequence of draws that brings up a free key sooner or later; each operation happens at one instant.
- CacheHandlers.ThemeCacheHandler.ClearCiCache: for the prefixes stage, map and claim (`ClearResponseCache` covers all); freshness is stated for batch ids free of characters special in patterns, as primary keys are, and for caches in which keys under the prefix can be rebuilt in place, as all runs of the program leave them. What a serializer makes of the transactions is a parameter, and so are the transactions looked up for it and the language its theme settles on.
- ExcelSheets.Excel.Validate: says nothing of the values left behind when a cell raises (`ExcelRow.Validate` does, for one row).
- NodeStats.Stats.UpdateValues: operation, tier and chain-length statistics, coordinates and id lists, which are plain lookups and averages.
- PremiumDedup.Deduplicate: takes it that the full query, the filtered one and `first()` list rows in one order; the report printed afterwards is left out.
- FarmerMerge.FarmerRecords.RemoveDuplicates: the groups of equal farmers, the last buyer of each farmer and the last default wallet are inputs; finding them is data-frame and query work.
- Percentages: floats are reals, so the error bound is that of rounding to hundredths alone; quantities are taken as not negative and directly set percentages as 0 to 100.
- The database: tables as finite collections, each method atomic, lazy querysets evaluated where they are written; criteria are listed in the same order on every call.
- The transactions, batches and actors keep only the columns the modelled code reads; creating them is not part of this model.
- The region test, email, phone, number, currency and country tests and the serializers are parameters; the sentences of verifiers and the complaints of cells are values rather than rendered text.
- `set_value`, `type` and the shown `value` of cells, and reading and writing workbooks.
- Clearing the whole file cache, culling and expiry in it, `MetaCacheHandler`, `get_batches`, and the activation of a language.
- Which claims and criteria are copied to a new batch (the state they start in is arbitrary here), company claims, transaction-wide claims, blockchain messages, notifications and activity logs.
- `AccessToken`, one-time passwords sent by text message, and request data of tokens.
