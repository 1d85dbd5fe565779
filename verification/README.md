# Verified model of the session agent

Dafny models of the parts of the agent where two pieces of code must agree over
every run, or where a loop has to keep a promise about the whole session.

- **Context compaction** (`Text`, `Tokens`, `Dom`, `Projection`, `Conversation`,
  `Previews`, `SummaryForest`, `SummaryRuns`, `SummaryJournal`, `Elision`,
  `Reducing`, `Planner`): the planner that elides, condenses, reduces and caps
  until a request fits, the forest of summary nodes it grows in the journal, and
  its agreement with the request that is really sent.
- **Compatibility rules** (`Revisions`, `RevisionPrefixes`, `Compat`): revision
  comparison, the rule patterns, conflict and shadow rejection, the compiled
  table, what it ranks first and what it resolves.
- **Commands** (`CommandText`, `ConfigScripts`, `WrittenCommands`,
  `AliasExpansion`, `ConVars`, `CommandEngine`, `CommandLaws`, `CommandJournal`):
  script splitting, words, commands written and read back, alias expansion, the
  variable store with deferred hooks, all-or-nothing execution with nested
  files, and the journal patch that must rehydrate to the state in memory.
- **Journal and replica** (`SessionJournal`, `Replica`): the tree of patches, the
  observer, and the interface's copy across delays, forks, session switches,
  lost writes and restarts.
- **Directors** (`Directors`, `DirectorSessions`, `DirectorAnswers`): the director
  stack, its written form, what it answers to candidate yields, and the
  forced-tool ladder across persistence and reload.
- **Input, output and layout** (`TerminalInput`, `Repetition`, `Utf8Text`,
  `SoftWrap`): the incremental terminal parser, the bounded repetition search and
  bracket closing, and the two soft-wrap layouts.

Loops and objects of the source are methods and classes here; each is proved
against a function, and the theorems are about that function. Protocols are
state machines whose steps use the same functions.

Where the code differs from what its comments promise, the model follows the
code and a lemma shows the input:

- not every planned saving is realized: omitting a call's arguments is counted as
  saving all their tokens, while the request still sends a marker of 20. An
  element sends more than its charge exactly then, unless its text is capped too
  (`OmissionIsNotRealized`); `RequestExact` accounts for a whole request, and a pass can settle under the hard bound and make a
  request above it (`RequestExceeds`). The `null` sent for a call without a
  recorded input is not charged either, but stays within the call overhead;
- `overlaps` misses revisions common to a prefix and a range whose minimum the
  prefix still gets to (`PrefixTestMisses` says exactly when,
  `PrefixAgainstRangeMisses` shows one), and both `overlaps` and `covers` misjudge
  ranges over mixed segments (`MixedRangesMisjudged`), so "conflicts are rejected"
  and "self must match every model that other matches" are proved under the
  conditions `RulesComparable` and `CoverComparable`;
- file order wins exactly when two rules share id, specificity and priority
  (`CompileIsOrderFree`; in `SharedIdsOrderDecides` it decides a value);
- forcing a tool with a blank name records a director that no longer loads
  (`ForceNeedsName`), and an outer forced tool can exceed its maximum
  (`OuterCanExceed`). No tool does in a session that forces another one only while
  the gate is open (`MaximaHold`), and `ForcingOverSpentExceeds` says what one
  forced later does to the spent one;
- closing brackets does not help a text cut off inside a string
  (`BalancedWhenOutsideStrings`);
- the two layouts part ways at exactly two kinds of place, next to clusters of no
  width or wider than the row (`LayoutsAgreeUnlessMisfit`, `MisfitsDisagree`).

## Model

| member | source | states |
|---|---|---|
| Text.TextPrefix | crates/omp-control/src/compaction.rs:138-148 | keeps the longest run of whole characters from the front that fits the byte limit |
| Text.TextSuffix | crates/omp-control/src/compaction.rs:150-162 | keeps the longest run of whole characters from the back that fits the byte limit |
| Utf8Text.BoundariesAgree | crates/omp-inference/src/corrective.rs:203-263 | looking at one byte tells where a text may be cut between characters, exactly as counting characters from the front does |
| Tokens.EstimateTokens | crates/omp-inference/src/compaction.rs:18-29 | the counting loop returns one token per four ASCII bytes, rounded up, plus two per other character |
| Tokens.EstimateWithinBytes | crates/omp-inference/src/compaction.rs:18-29 | the estimate lies between a quarter of the UTF-8 length and the UTF-8 length, for every text |
| Tokens.TruncateForProjection | crates/omp-control/src/compaction.rs:124-136 | a long text becomes head, omission note with the omitted byte count, and tail; a short one is itself |
| Tokens.TruncatedKeeps | crates/omp-control/src/compaction.rs:123-168 | a truncated text starts with the longest whole-character beginning of 400 bytes and ends with the longest end of 200, and its note counts exactly the bytes left out |
| Tokens.TruncatedFits | crates/omp-control/src/compaction.rs:123-168 | a capped text costs at most 627 tokens, below the 696 the planner charges for it, for every text that fits in memory |
| Tokens.CapNodeText | crates/omp-control/src/compaction.rs:623-631 | an oversized inventory is cut at a character boundary and ends in the note that it goes on |
| Tokens.CapShrinks | crates/omp-control/src/compaction.rs:623-631 | capping an inventory over 8,000 bytes brings it to at most 8,000 bytes and strictly lowers its estimate |
| Tokens.DeriveBudget | crates/omp-inference/src/compaction.rs:50-77 | a budget exists exactly when the window exceeds the reserve and leaves a quarter of itself; the hard bound is what is left; the soft bound is the largest number within both the clamped share of the window and the hard bound, at least 1; and 1 <= target <= soft <= hard |
| Tokens.ShareIsClamped | crates/omp-inference/src/compaction.rs:62-66 | the share is the ratio between a tenth and the whole, and 0.8 where there is none |
| Projection.CollectEntries | crates/omp-control/src/compaction.rs:633-718 | the collection loop yields, in order, one entry per body element that the request can carry |
| Projection.DeriveMessages | crates/omp-control/src/host.rs:894-985 | the message loop yields, in order, the messages of every uncovered element under the reductions; what they say is `ReadsBack` |
| Conversation.ReadsBack | crates/omp-control/src/host.rs:894-985 | reading the messages back gives the uncovered elements in order: each in the role the planner charges it under, texts verbatim or capped, instructions verbatim, each call with its own id, tool and payload or the marker, and its result right behind it; no result stands alone |
| Conversation.ReadsVerbatim | crates/omp-control/src/host.rs:894-985 | without reductions what is read back is exactly the uncovered elements, word for word |
| Conversation.RoleIsKind | crates/omp-control/src/compaction.rs:633-718 | the role an element is charged under is its kind's |
| Conversation.TurnIsSentWhenComplete | crates/omp-control/src/host.rs:908-931 | an assistant's turn is left out exactly while it runs or streams, or when it failed or was cancelled |
| Conversation.PinnedByAttribute | crates/omp-control/src/compaction.rs:720-722 | an element is pinned by its attribute of that name being true |
| Projection.ReductionSaves | crates/omp-control/src/compaction.rs:206-238 | each reduction an entry offers lowers its charge by exactly the savings it claims, and by at least one token |
| Projection.FullyReducedIs | crates/omp-control/src/compaction.rs:206-238 | what gives way in the end: every text above the cap, and the arguments of a call that are above 64 tokens and above what its text then costs |
| Projection.ArgumentsFirst | crates/omp-control/src/compaction.rs:206-238 | a call that gives both gives its arguments first exactly when they are above its whole text |
| Projection.ExhaustedIsSmall | crates/omp-control/src/compaction.rs:206-238 | an entry that offers no reduction is charged at most 2*696+8 tokens, or 696 if it is not a tool call |
| Projection.ChargedIffSent | crates/omp-control/src/compaction.rs:633-718 | an element is an entry of the planner exactly when the request emits a message for it |
| Projection.SentWithinCharge | crates/omp-control/src/compaction.rs:477-503 | the estimate of what an element sends, a call's arguments and result together, is at most its charge, plus the marker where arguments were omitted |
| Projection.ChargeIsExact | crates/omp-control/src/compaction.rs:463-503 | under any reduction the planner can decide on, what an element sends is its charge without the call overhead, plus 20 tokens for omitted arguments or 1 for the `null` of an absent payload, less what a capped text costs below the cap |
| Projection.OmissionIsNotRealized | crates/omp-control/src/compaction.rs:459-503 | an element sends more than it is charged exactly when its arguments were omitted and its text was not capped |
| Projection.SavingNotRealized | crates/omp-control/src/compaction.rs:206-238 | a tool call whose next planned reduction is charged 8 tokens and sends 20 |
| Projection.EligibleElement | crates/omp-control/src/compaction.rs:633-718 | an entry may give way exactly when its element is complete, unpinned and no instruction; only tool calls are charged for arguments |
| Projection.MarkerCost | crates/omp-control/src/host.rs:950-957 | the argument marker is estimated at exactly 20 tokens |
| Projection.WireWithinCharge | crates/omp-control/src/compaction.rs:477-503 | over a whole body, what the request carries is at most what the planner counts plus the excess of the markers of calls whose text is whole |
| Projection.WireExact | crates/omp-control/src/compaction.rs:463-503 | over any body what the request carries is known exactly, and exceeds the planner's count exactly when markers and `null`s exceed the overhead charged for calls and the slack of capped texts |
| SummaryForest.Load | crates/omp-control/src/compaction.rs:253-268 | the load loop yields the readable nodes, their texts, creation order and the number of unreadable ones |
| SummaryForest.RootsCarryLeaves | crates/omp-control/src/compaction.rs:270-297 | any weight shared out among children adds up over the roots to what it adds up to over the leaves |
| SummaryForest.RootTokens | crates/omp-control/src/compaction.rs:285-297 | in a forest the roots' `covered_tokens` add up to the leaves' |
| SummaryForest.ExpansionEquation | crates/omp-types/src/summary.rs:180-200 | every node expands to its own elements and those of its children, the equation that defines expansion |
| SummaryForest.CoveredFromOneRoot | crates/omp-control/src/compaction.rs:270-283 | every covered element is in the expansion of exactly one root, once |
| SummaryForest.CoveredByOneLeaf | crates/omp-control/src/compaction.rs:278-283 | every covered element is named by exactly one node, a leaf, once |
| SummaryForest.RootsCountCovered | crates/omp-control/src/compaction.rs:278-317 | the roots' expansions together have as many elements as are covered |
| SummaryForest.ExpandCovered | crates/omp-types/src/summary.rs:180-200 | the walk terminates on every map, cyclic or not, and lists, level by level from the root and in stored order, what the nodes reached cover, each element at its first occurrence |
| SummaryForest.VisitsAreLevels | crates/omp-types/src/summary.rs:182-200 | working off a queue visits the nodes level by level: all of one distance in order, then their children |
| SummaryForest.ExpandedIsExpansion | crates/omp-types/src/summary.rs:180-200 | in a forest the walk from a node lists exactly that node's expansion |
| SummaryRuns.StepKeepsForest | crates/omp-control/src/compaction.rs:515-593 | eliding, condensing and capping keep the forest; only eliding covers anything or adds tokens, and exactly its own |
| SummaryRuns.CondensedRoots | crates/omp-control/src/compaction.rs:387-409 | condensing replaces the oldest roots by one, placed last |
| SummaryRuns.RunKeepsForest | crates/omp-control/src/compaction.rs:319-461 | over every run of such writes the forest stays, nothing is elided twice, and covered elements and root tokens grow by exactly what was elided |
| SummaryJournal.Journal.AppendBody | crates/omp-control/src/compaction.rs:319-324 | appending a body element adds one journal record and leaves the summary nodes alone; a failed write changes nothing |
| SummaryJournal.Journal.CreateNode | crates/omp-control/src/compaction.rs:547-572 | a created node gets an unused name and goes after all others; a failed write changes nothing |
| SummaryJournal.Journal.ReplaceNodeText | crates/omp-control/src/compaction.rs:574-593 | replaces the text of one node and nothing else; a failed write changes nothing |
| SummaryJournal.Folds | crates/omp-control/src/compaction.rs:299-317 | one fold per root, in order, saying how many elements the walk from it finds and their tokens |
| SummaryJournal.FoldIsExact | crates/omp-control/src/compaction.rs:299-317 | in a forest a fold counts its root's expansion and the tokens recorded for it |
| SummaryJournal.FoldsStandForCovered | crates/omp-control/src/compaction.rs:299-317 | the folds together stand for every covered element once and for exactly the tokens elided |
| SummaryJournal.RenderInventory | crates/omp-control/src/compaction.rs:595-607 | a header and one line per element, in order |
| Previews.PreviewShows | crates/omp-control/src/compaction.rs:724-741 | a preview is one line, never empty, at most 99 bytes: the words of the first inked line, or their beginning and an ellipsis |
| Previews.InkedLineIsFirst | crates/omp-control/src/compaction.rs:724-741 | the line shown stands behind blank lines only |
| SummaryJournal.RenderCondensed | crates/omp-control/src/compaction.rs:609-621 | a header and one line per child, whose element count is its expansion's size |
| Elision.RecentBeforeFinal | crates/omp-control/src/compaction.rs:743-763 | the kept-turns boundary never lies behind the boundary of the turn in flight |
| Elision.OlderThanKept | crates/omp-control/src/compaction.rs:743-755 | an entry is older than the turns kept exactly when there are more turns than those, at least one, and all of them start after it |
| Elision.SavingsWithinBody | crates/omp-control/src/compaction.rs:344-368 | what eliding saves was charged, so the simulated projection never underflows |
| Elision.SelectSoft | crates/omp-control/src/compaction.rs:344-368 | takes exactly the shortest oldest-first run of worthwhile old entries that reaches the target, or all of them, and only when triggered |
| Elision.SoftElement | crates/omp-control/src/compaction.rs:344-368 | in terms of the transcript: the soft pass chooses among exactly the uncovered elements that may give way, pay for their inventory line and header, and stand before the turns kept |
| Planner.SimulatedMeans | crates/omp-control/src/compaction.rs:344-368 | what the soft pass simulates is the body's unreduced charge once its choice is covered, with 64 tokens for each covered element |
| Elision.SelectHard | crates/omp-control/src/compaction.rs:369-378 | adds every eligible uncovered entry before the last user entry that is not taken yet, in order |
| Elision.PendingIsElidable | crates/omp-control/src/compaction.rs:344-378 | both passes together choose distinct entries that are eligible, uncovered and before the last user entry |
| Elision.ElidableElement | crates/omp-control/src/compaction.rs:344-378 | in terms of the transcript: exactly the uncovered elements that are complete, unpinned and no instructions, with a user's turn after them, may be elided |
| Reducing.SelectReduction | crates/omp-control/src/compaction.rs:411-429 | picks the first entry of lowest rank with the largest saving, and none only if no entry can give more |
| Reducing.BeforeMeans | crates/omp-control/src/compaction.rs:411-429 | tool calls give way before assistant text before the user's words, and among one kind what lowers the charge most |
| Reducing.GivesWayInOrder | crates/omp-control/src/compaction.rs:411-437 | the user's words are reduced only once no call and no assistant text can give more, assistant text only once no call can, instructions never |
| Reducing.ReductionLowersBody | crates/omp-control/src/compaction.rs:417-437 | taking a reduction lowers the body's charge by exactly its savings, which are positive |
| Reducing.ReduceEntries | crates/omp-control/src/compaction.rs:411-437 | terminates; touches only uncovered entries that are not instructions; lowers a rank only once those before it are exhausted; stops as soon as the bound holds or everything is exhausted |
| Reducing.ExhaustedEntriesAreSmall | crates/omp-control/src/compaction.rs:411-437 | when the stage gives up every entry it may touch is charged at most its caps |
| Planner.CommitElision | crates/omp-control/src/compaction.rs:515-545 | one new leaf covers exactly the chosen elements at their charge, and the index in memory equals a fresh load |
| Planner.CoveringTakesCharge | crates/omp-control/src/compaction.rs:515-545 | what a leaf records for its elements is exactly what covering them takes out of the body's unreduced charge |
| Planner.PassConserves | crates/omp-control/src/compaction.rs:319-461 | over every pass, finished or cut short, the body's unreduced charge and the roots' tokens together stay the same, and a new leaf records exactly the drop in the charge |
| Planner.CondenseOnce | crates/omp-control/src/compaction.rs:387-409 | one condensation of the oldest roots strictly lowers the number of roots, and the index equals a fresh load |
| Planner.CondenseStage | crates/omp-control/src/compaction.rs:387-409 | terminates with at most the allowed number of roots, through allowed condensations of the oldest ones only |
| Planner.CapLowersRoots | crates/omp-control/src/compaction.rs:439-454 | capping an oversized root keeps roots and forest and strictly lowers what the roots cost |
| Planner.CapStage | crates/omp-control/src/compaction.rs:439-454 | terminates; stops when the bound holds or no root text exceeds 8,000 bytes |
| Planner.RootCostIs | crates/omp-control/src/compaction.rs:292-297 | the roots cost their texts' estimates and 24 tokens each |
| Planner.ChooseElision | crates/omp-control/src/compaction.rs:344-378 | what a pass elides is the soft run followed, if it was not enough, by the hard pass, and every element may be elided |
| Planner.Plan | crates/omp-control/src/compaction.rs:319-461 | a pass elides only what may be elided and settles as described below; a failed write stops it after allowed steps; an unreadable node makes it write nothing |
| Planner.PassSettles | crates/omp-control/src/compaction.rs:319-461 | after a pass either the hard bound holds or every entry and inventory that may give way has; covered is what was covered plus what was chosen; folds are exact |
| Planner.RequestFits | crates/omp-control/src/compaction.rs:477-503 | a pass that ends under the hard bound makes a request whose texts, arguments, folds and overhead exceed it at most by the excess of the markers of calls whose text is whole |
| Planner.RequestExact | crates/omp-control/src/compaction.rs:463-503 | after any settled pass, under the bound or not, what the request costs is known exactly, and so is when it exceeds the bound |
| Planner.RequestExceeds | crates/omp-control/src/compaction.rs:459-503 | over one long tool call and a bound between the 8 tokens then charged and the 20 sent, every settled pass that writes nothing meets the bound and makes a request above it |
| Planner.OmissionSettles | crates/omp-control/src/compaction.rs:411-461 | there is such a settled pass, the one that omits the arguments |
| Planner.SpentElementsAreSmall | crates/omp-control/src/compaction.rs:411-437 | after a settled pass that is still over the bound, every element that stays and may be reduced is charged at most its caps |
| Planner.FoldsCoverEverything | crates/omp-control/src/compaction.rs:299-317 | the folds of a settled pass stand for every covered element once, at the roots' tokens |
| Planner.SessionIsRun | crates/omp-control/src/compaction.rs:319-461 | any sequence of passes over one transcript whose elements may change in place and grow in number, some passes cut short by failed writes, is one run of allowed steps |
| Planner.SessionConserves | crates/omp-control/src/compaction.rs:319-461 | over any session the roots' tokens are the sum of what each pass took out of the unreduced charge of the body it found |
| Planner.SessionStaysForest | crates/omp-control/src/compaction.rs:319-461 | after any such session the nodes are a forest, cover only transcript elements, and their roots account for exactly the tokens ever elided, which are the charges taken out of the bodies |
| Revisions.CompareRevisions | crates/omp-inference/src/compat.rs:49-80 | the comparison loop terminates after at most one exchange of its arguments and returns the segment-wise order |
| Revisions.CompareIsAntisymmetric | crates/omp-inference/src/compat.rs:49-80 | exchanging the arguments reverses the result, for all strings |
| Revisions.CompareIsVectorOrder | crates/omp-inference/src/compat.rs:44-80 | on revisions of 64-bit numbers it is the order of zero-padded number vectors |
| Revisions.NumericTransitive | crates/omp-inference/src/compat.rs:44-80 | on such revisions it is transitive |
| Revisions.AlikeTransitive | crates/omp-inference/src/compat.rs:44-80 | more generally it is transitive on revisions that have numbers, or no numbers, at the same places, whatever their lengths |
| Revisions.MixedRevisionsCycle | crates/omp-inference/src/compat.rs:44-80 | with mixed segments it is not: 2 < 10 < 1a < 2 |
| RevisionPrefixes.SeparatorsSplit | crates/omp-inference/src/compat.rs:44-80 | dots, hyphens and underscores separate segments alike |
| Compat.CompatCompiler.AddRule | crates/omp-inference/src/compat.rs:393-454 | accepts a rule exactly when its range is in order and it neither conflicts with, shadows nor is shadowed by a rule held; errors name such a rule; the list stays accepted |
| Compat.RefusedRangeIsEmpty | crates/omp-inference/src/compat.rs:393-401 | a range with numeric bounds is refused exactly when no numeric revision lies in it |
| Compat.ConflictIsReal | crates/omp-inference/src/compat.rs:403-429 | rules refused for a conflict both match some model and answer it differently |
| Compat.DeadIsShadowed | crates/omp-inference/src/compat.rs:316-374 | a rule that outranks another, matches all its models and speaks to everything it does shadows it, for the forms of patterns whose cover test is complete |
| Compat.CompatCompiler.Compile | crates/omp-inference/src/compat.rs:475-488 | the table holds exactly the accepted rules, most specific first, then by priority, then by id; what is most specific is `RankIsLadder` |
| Compat.RankIsLadder | crates/omp-inference/src/compat.rs:226-258 | a rule that names a host outranks every rule that names none; among hosts an exact revision, then a family; among the others provider with revision, provider with family, class; then the higher priority |
| Compat.LadderDecides | crates/omp-inference/src/compat.rs:819-857 | the compiled table answers with any rule at the top of that ladder among those that match and speak to the question |
| Compat.HostRulesDecide | crates/omp-inference/src/compat.rs:226-258 | rules naming the model's host answer before all that name none, whatever their priorities |
| Compat.AcceptedIsPairwise | crates/omp-inference/src/compat.rs:393-454 | a list is accepted exactly when its rules are in order one by one and compatible two by two |
| Compat.AcceptanceIsOrderFree | crates/omp-inference/src/compat.rs:393-454 | whether a list is accepted does not depend on the order of its rules |
| Compat.SortRulesSorts | crates/omp-inference/src/compat.rs:475-488 | sorting puts the rules in precedence order and keeps every one |
| Compat.CompileIsOrderFree | crates/omp-inference/src/compat.rs:475-488 | the compiled table does not depend on the order the rules were added in, exactly when no two different rules share their id, specificity and priority |
| Compat.CompileIsStable | crates/omp-inference/src/compat.rs:475-488 | rules that share id, specificity and priority stay in the order they were added in |
| Compat.Resolve | crates/omp-inference/src/compat.rs:819-847 | every capability of the profile, and the tool cost, is what the first matching rule with an opinion says |
| Compat.ResolveCapability | crates/omp-inference/src/compat.rs:849-857 | one capability alone resolves to the same value as in the profile |
| Compat.PatternsMeet | crates/omp-inference/src/compat.rs:104-158 | two patterns that match one revision overlap, unless the overlap was denied between strings of different kinds, or by a minimum that the prefix still gets to |
| Compat.OverlapIsReal | crates/omp-inference/src/compat.rs:104-158 | patterns that overlap have a revision in common, whatever their strings |
| Compat.BothMatchOverlap | crates/omp-inference/src/compat.rs:286-313 | two equally specific rules that match one model overlap, so the conflict check sees the pair |
| Compat.TiedRulesAgree | crates/omp-inference/src/compat.rs:393-447 | in an accepted list, tied rules that match the same model never disagree |
| Compat.RankDecides | crates/omp-inference/src/compat.rs:819-857 | the table answers with any of the highest-ranked matching rules: neither ids nor order decide a capability |
| Compat.RankDecidesCost | crates/omp-inference/src/compat.rs:837-843 | the same for the tool cost |
| Compat.CoversIncludes | crates/omp-inference/src/compat.rs:160-210 | a pattern that covers another matches whatever that matches; for two ranges where a bound is shared or bounds and revision are of the same kinds, numbers or not, place by place |
| Compat.InclusionIsCovered | crates/omp-inference/src/compat.rs:160-210 | for complete forms, a pattern that matches all another does covers it |
| Compat.ShadowMatches | crates/omp-inference/src/compat.rs:316-374 | a shadowing rule matches every model its victim matches |
| Compat.ShadowedIsDead | crates/omp-inference/src/compat.rs:316-374 | deleting a shadowed rule from any table in precedence order changes no capability and no tool cost of any model |
| RevisionPrefixes.SharesExactly | crates/omp-inference/src/compat.rs:83-102 | a numeric prefix and a range have a numeric revision in common exactly when the prefix is not above the maximum, or, if it is below the minimum, when its last number climbs to the range |
| RevisionPrefixes.SeparatedSharesExactly | crates/omp-inference/src/compat.rs:83-102 | the same for a numeric prefix with a separator behind it: below the minimum, exactly when its numbers are the minimum's first and the range is not empty |
| RevisionPrefixes.EntersExactly | crates/omp-inference/src/compat.rs:83-102 | the case below the minimum: an extension lies in the range exactly when the segments before the last agree and one of at most twenty more digits gets the last number there |
| RevisionPrefixes.PrefixIsLeast | crates/omp-inference/src/compat.rs:44-80 | extending a numeric revision never lowers it |
| Compat.PrefixTestMisses | crates/omp-inference/src/compat.rs:140-156 | on numeric prefixes, with or without a separator behind them, and numeric bounds `overlaps` denies a common revision exactly when the minimum denies a prefix that enters the range; its maximum test never errs |
| Compat.PrefixAgainstRangeMisses | crates/omp-inference/src/compat.rs:140-156 | a prefix and a range can both match a model although `overlaps` denies it; the rules are accepted and the id decides |
| Compat.MixedRangesMisjudged | crates/omp-inference/src/compat.rs:119-139 | with mixed segments `overlaps` misses a common revision and `covers` claims one that is not included |
| Compat.SharedIdsOrderDecides | crates/omp-inference/src/compat.rs:404-408 | rules with one id skip the conflict check, and then the order they were added in decides a value |
| CommandText.SplitStatements | crates/omp-control/src/command.rs:289-354 | the splitting loop yields the statements between separators and comments, respecting quotes and escapes |
| CommandText.TokenizeLine | crates/omp-control/src/command.rs:357-406 | the tokenizer loop yields the words of a statement, or the unclosed-quote error |
| CommandText.ParseScript | crates/omp-control/src/command.rs:636-643 | all commands of a script, or the error of its first bad statement; which commands is `CommandsRoundTrip` |
| WrittenCommands.CommandsRoundTrip | crates/omp-control/src/command.rs:391-640 | a script that writes commands as quoted words parses to exactly these commands, in order, if and only if each is shaped as the grammar allows, no name is a verb, and every word is nonempty without control characters the reader cannot escape |
| WrittenCommands.StatementReadsBack | crates/omp-control/src/command.rs:391-630 | the same for each kind of command by itself |
| WrittenCommands.VerbsIgnoreCase | crates/omp-control/src/command.rs:400-520 | verbs are recognised in any case, and `/force` is `force` |
| WrittenCommands.VerbsNeedWords | crates/omp-control/src/command.rs:400-495 | a verb by itself is refused, naming it and what it lacks, unless it is `echo` |
| CommandLaws.CommentIsLineEnd | crates/omp-control/src/command.rs:288-352 | outside quotes a comment reads as the end of its line, whatever is before and after it |
| WrittenCommands.HostReadsItsOwn | crates/omp-control/src/command.rs:540-610 | the host's verbs in any case, and cancelling a job by its name, go to the host |
| CommandText.WordsNeedClosedQuotes | crates/omp-control/src/command.rs:357-406 | a statement tokenizes exactly when a quote-and-backslash scan of it ends outside quotes |
| CommandText.StatementsTokenize | crates/omp-control/src/command.rs:289-406 | every statement of a script tokenizes exactly when the script ends outside quotes, and only the last can fail |
| ConfigScripts.StatementsOfScript | crates/omp-control/src/host.rs:817-827 | the script written for a child splits into one statement per path, for every list of paths |
| ConfigScripts.WordsOfStatement | crates/omp-control/src/host.rs:817-824 | a written statement is read as the verb and the path, with unreadable control characters left as their escapes |
| ConfigScripts.ScriptRoundTrip | crates/omp-control/src/host.rs:817-827 | the script parses to exactly one `exec` per path if and only if every path is nonempty and free of control characters other than tab, line feed and carriage return |
| AliasExpansion.ExpandCommand | crates/omp-control/src/command.rs:714-795 | terminates for every alias table; returns what the recursive definition gives; the chain of aliases never repeats a name and is restored on success |
| CommandLaws.AliasCall | crates/omp-control/src/command.rs:714-800 | a call of an alias expands to what its text, with two or more arguments written behind it, expands to one level deeper; with exactly one argument it is an assignment |
| CommandLaws.NoAliasCall | crates/omp-control/src/command.rs:714-800 | a command that names no alias stands for itself |
| AliasExpansion.ExpandedIsClean | crates/omp-control/src/command.rs:714-795 | no command of a successful expansion names an alias |
| AliasExpansion.ExpandedWithinBudget | crates/omp-control/src/command.rs:722-728 | a successful expansion has charged at least its text and at most the byte limit |
| AliasExpansion.LimitsOnlyCut | crates/omp-control/src/command.rs:714-795 | limits and visited aliases only cut expansion off: what succeeds is the same under wider limits |
| ConVars.ConVarStore.constructor | crates/omp-control/src/convar.rs:476-485 | a new store is empty, outside transactions, without pending calls |
| ConVars.ConVarStore.BeginTransaction | crates/omp-control/src/convar.rs:495-498 | opens a transaction with no waiting calls and touches nothing else |
| ConVars.ConVarStore.CommitTransaction | crates/omp-control/src/convar.rs:503-509 | closes the transaction and makes the waiting hook calls in order |
| ConVars.ConVarStore.RegisterDef | crates/omp-control/src/convar.rs:517-523 | declares a variable and gives it its default unless it has a value |
| ConVars.ConVarStore.Set | crates/omp-control/src/convar.rs:549-619 | refused writes change nothing; an accepted one changes the value, the dirty mark and the cheats flag as declared, and calls or queues its hook once |
| ConVars.ConVarStore.SetFromStr | crates/omp-control/src/convar.rs:622-685 | converts and then sets, with the same refusals in the same order |
| CommandLaws.KindsAreKept | crates/omp-control/src/convar.rs:549-590 | a stored value keeps the kind of the default, except that an unset default takes any and an unknown one a truth value |
| CommandLaws.RightKindIsStored | crates/omp-control/src/convar.rs:549-660 | a value of the right kind that no check complains of is stored |
| ConVars.ConVarStore.HydrateFromDom | crates/omp-control/src/convar.rs:715-739 | every session variable takes the document's value or its default, cheats follow `sv_cheats`, and nothing is pending or dirty |
| ConVars.ConVarStore.DrainSessionPatch | crates/omp-control/src/convar.rs:742-771 | the patch has one operation per dirty variable and puts exactly their current values into any document; afterwards nothing is dirty |
| ConVars.ConVarStore.SeedChild | crates/omp-control/src/convar.rs:775-789 | a child store has its parent's values and marks every session variable dirty |
| ConVars.SeedSurvivesHydration | crates/omp-control/src/convar.rs:715-789 | writing a seeded child's patch into an empty document and hydrating from it gives the parent's values |
| CommandEngine.Engine.HydrateFromDom | crates/omp-control/src/command.rs:699-712 | binds and aliases are exactly the prefixed text entries of the document |
| CommandEngine.Engine.ExecuteOne | crates/omp-control/src/command.rs:861-1014 | one command changes the machine and yields the effect its definition says, without calling a hook |
| CommandEngine.ToggleGoesRound | crates/omp-control/src/command.rs:929-957 | toggling through listed values, compared as typed values, goes to the next one and from the last to the first |
| CommandEngine.ToggleComesIn | crates/omp-control/src/command.rs:929-957 | toggling from a value that is not listed goes to the first |
| CommandLaws.FlipTurnsOver | crates/omp-control/src/command.rs:893-925 | toggling without values works exactly for truth values, numbers, unset ones and tri-state words, and writes true exactly when the current value is not |
| CommandLaws.StatementRuns | crates/omp-control/src/command.rs:835-866 | running a written statement is running its command, charged for its text |
| CommandLaws.AssignmentSticks | crates/omp-control/src/command.rs:861-884 | an assignment that succeeds is what a query then reports, and changes nothing else |
| CommandLaws.ForceDefaults | crates/omp-control/src/command.rs:977-990 | a tool is forced three times with a reminder naming it, unless the command says otherwise |
| CommandEngine.Engine.ExecuteStream | crates/omp-control/src/command.rs:835-860 | terminates for every loader; a script runs statement by statement, each expanded first, nested files included, up to the first error |
| CommandEngine.Engine.ExecuteLoaded | crates/omp-control/src/command.rs:811-833 | a failing script leaves store, binds and aliases as they were and has called no hook; a successful one outside a transaction makes its calls after all changes; inside one it makes none |
| CommandJournal.CommandEffectsToPatch | crates/omp-control/src/command.rs:1018-1073 | the patch holds one operation per recorded effect, in order, or there is none |
| CommandJournal.JournalCommutes | crates/omp-control/src/command.rs:699-711 | from a hydrated state, running any successful script, patching the document with its effects and rehydrating gives the session variables, binds, aliases and cheats flag held in memory |
| CommandJournal.RehydrationIsIdle | crates/omp-control/src/convar.rs:715-739 | rehydrating the store the script ran on changes none of its values and not the cheats flag |
| CommandJournal.DrainEqualsLog | crates/omp-control/src/convar.rs:742-771 | on variable names, one operation per dirty variable has the same effect as the full effect log |
| CommandJournal.HooksFollowChanges | crates/omp-control/src/convar.rs:503-509 | from any state, a successful run queues one call per change of a hooked variable, in order, and is charged at most the byte limit |
| CommandJournal.PrefixedNameLeaks | crates/omp-control/src/command.rs:1040-1057 | a session variable named like a bind would be read back as one |
| CommandJournal.UnsavedCheatsForgotten | crates/omp-control/src/convar.rs:603-614 | an `sv_cheats` that is not saved would be forgotten by the document |
| SessionJournal.Journal.Materialize | crates/omp-state/src/journal.rs:263-280 | climbing to the root and applying downwards gives the document of any offset; unknown offsets are refused |
| SessionJournal.MaterializedIsReplay | crates/omp-state/src/journal.rs:330-363 | the document at an offset is the empty one with the operations on its path applied in order, and there is none exactly when one is refused |
| SessionJournal.Journal.AppendOn | crates/omp-state/src/journal.rs:297-363 | a stored record extends journal and snapshot; anything else leaves both, and a broken write blocks further ones |
| SessionJournal.Journal.ForkAt | crates/omp-state/src/journal.rs:364-393 | a branch starts exactly when the journal is writable, the offset exists, the record applies to its document and is stored; any failure leaves journal and snapshot as they were |
| SessionJournal.Journal.SelectBranch | crates/omp-state/src/journal.rs:397-414 | forks from the newest record of a branch, exactly when there is one or the branch is the main one and such a fork succeeds |
| SessionJournal.Open | crates/omp-state/src/journal.rs:127-197 | reading a file keeps the records up to the first that does not fit, and its document is the newest one's own, branch points included |
| SessionJournal.SoundOneMore | crates/omp-state/src/journal.rs:297-363 | a record on top of any materialized document keeps every document of the journal |
| Replica.Observer.Observe | crates/omp-cli/src/worker.rs:378-404 | whether sent as a patch or as the whole document, the event takes every copy of what was announced before to the committed document, which is then the announced one |
| Replica.Interface.Consume | crates/omp-cli/src/tui.rs:188-215 | handles the events of one poll in order and fails exactly when a patch does not apply |
| Replica.ReceivesAreOnePoll | crates/omp-cli/src/tui.rs:188-215 | receiving queued events one by one, in any reachable state, is the same as one poll of them, and never fails |
| Replica.PatchNeedsItsBase | crates/omp-state/src/dom.rs:540-564 | a truthful copy takes a record's patch exactly when it holds the record's parent, and then holds the record's document |
| Replica.NextKeeps | crates/omp-cli/src/worker.rs:378-404 | every commit, announcement, delivery, lost write, session switch and restart keeps the invariant |
| Replica.StartedSound | crates/omp-cli/src/worker.rs:410-466 | a worker started on the copy's journal announces its document first, whatever the queue held |
| Replica.RestartKeeps | crates/omp-cli/src/worker.rs:949-970 | killing the worker and restarting it on the known journal keeps the invariant |
| Replica.CopyIsFaithful | crates/omp-cli/src/tui.rs:188-215 | in every run the interface shows its journal's document at an announced offset, every queued event applies, and an empty queue with nothing unannounced means it shows the worker's document |
| Replica.PatchMeetsItsBase | crates/omp-cli/src/worker.rs:378-404 | when only a patch is sent the interface will hold exactly its parent document by the time it arrives |
| Directors.SpecRoundTrip | crates/omp-control/src/director.rs:139-215 | a director written down and read back is the same director, exactly when a forced tool has a nonblank name |
| DirectorAnswers.SparseState | crates/omp-control/src/director.rs:139-190 | what a director is when its written state says nothing: only a forced tool needs something, its name |
| DirectorAnswers.CountersAreRead | crates/omp-control/src/director.rs:163-176 | a counter is read as a 64-bit number cut to 32 bits; anything else counts as absent |
| Directors.InnermostDecides | crates/omp-control/src/agent_loop.rs:45-53 | the innermost forced tool has the last word on the tool choice |
| Directors.DirectorStack.PrepareInference | crates/omp-control/src/agent_loop.rs:45-53 | the directors change the request one after the other from the outside in |
| Directors.DirectorStack.AskDirectors | crates/omp-control/src/agent_loop.rs:56-84 | the index loop asks from the inside out, drops satisfied directors and stops at the first that decides |
| DirectorAnswers.InnermostDecider | crates/omp-control/src/agent_loop.rs:56-84 | the innermost director that does not let a yield through decides it; those further out are not asked, those further in that passed stay |
| DirectorAnswers.NobodyDecides | crates/omp-control/src/agent_loop.rs:56-84 | when all let it through the turn yields and those that passed stay |
| DirectorAnswers.MissedToolDecides | crates/omp-control/src/director.rs:239-273 | after a miss of the innermost forced tool the model is asked to go on exactly when the stack left behind admits another inference; otherwise the turn fails or yields, as the tool says |
| DirectorAnswers.ReminderFollowsMiss | crates/omp-control/src/director.rs:217-237 | the next request forces the tool again and ends with a reminder numbered one above the miss the model was told of |
| DirectorAnswers.DirectorsGiveNotice | crates/omp-control/src/agent_loop.rs:45-53 | every director adds its reminder or notice behind what the request says, and nothing else |
| DirectorAnswers.ForcedContinuations | crates/omp-control/src/host.rs:216-238 | a tool forced with maximum m and never called has the model asked to go on exactly m - 1 times, whatever turns and reloads follow, and then no more turns are admitted |
| DirectorAnswers.RemindsOnce | crates/omp-control/src/director.rs:336-362 | over any history a todo reminder is satisfied while none are known, asks to go on the first time there are some, naming them, and then lets turns pass |
| DirectorAnswers.PlanComesFirst | crates/omp-control/src/director.rs:464-524 | over any history plan mode asks to go on until some turn touched the plan file, then until some turn presented the plan or asked, and then lets turns pass |
| DirectorAnswers.GoalOnlyWatches | crates/omp-control/src/director.rs:625-634 | a goal never asks to go on, and leaves once completed |
| DirectorAnswers.CompliesByName | crates/omp-control/src/director.rs:239-247 | a tool is called when any use of the turn, asked for or carried out, names it |
| DirectorAnswers.PlanIsTouched | crates/omp-control/src/director.rs:484-502 | reading, writing or editing the plan by its path, or by one of the two ending in the other behind a slash, touches it |
| DirectorAnswers.OtherFilesDoNot | crates/omp-control/src/director.rs:541-560 | a file whose name only ends like the plan's does not count |
| Directors.OnYieldKeepsIdentity | crates/omp-control/src/director.rs:239-273 | a candidate yield changes neither the id nor the kind of any director |
| DirectorSessions.FromSessionSnapshot | crates/omp-control/src/agent_loop.rs:101-125 | the stack a document describes, or the first error in it |
| DirectorSessions.SyncDirectors | crates/omp-control/src/host.rs:1300-1347 | the operations make the document hold the state of exactly the directors on the stack |
| DirectorSessions.SyncReadsBack | crates/omp-control/src/host.rs:1300-1347 | after a handled yield is synced, reading the document back gives the stack in memory, same order, same state |
| DirectorSessions.ToolForcePolicy.PrepareRequest | crates/omp-inference/src/tool_force.rs:76-156 | spent attempts refuse the request; otherwise the instruction goes in and the tool is forced or not by support, cost and attempt |
| DirectorSessions.ToolForcePolicy.RecordTurnResult | crates/omp-inference/src/tool_force.rs:159-200 | a call satisfies; a miss counts, and the last one is an error |
| DirectorSessions.PrepareTurn | crates/omp-control/src/host.rs:211-238 | a request goes to inference exactly when no tool is forced or the innermost forced tool has attempts left |
| DirectorSessions.ForcingSpecIsInnermost | crates/omp-control/src/host.rs:216-236 | the written state the gate reads is the innermost forced tool's, counters included |
| DirectorSessions.ReloadIsIdle | crates/omp-control/src/agent_loop.rs:101-125 | reloading the document changes nothing |
| DirectorSessions.ForceNeedsName | crates/omp-control/src/host.rs:627-659 | a `force` command leaves a loadable document exactly when the tool's name is not blank |
| DirectorSessions.SessionSurvivesReload | crates/omp-control/src/host.rs:310-332 | at any point of any session the document reads back as the stack, and no forced tool was missed more often than allowed while innermost |
| DirectorSessions.ExhaustedStaysRefused | crates/omp-control/src/host.rs:216-238 | once the innermost forced tool is spent every turn is refused before inference, reloads included, until another tool is forced |
| DirectorSessions.MaximaHold | crates/omp-control/src/host.rs:216-238 | a session that forces another tool only while inference would be admitted never misses any forced tool, outer ones included, more often than its maximum |
| DirectorSessions.ForcingOverSpentExceeds | crates/omp-control/src/host.rs:627-659 | forcing another tool over a spent one makes the spent one exceed its maximum on the next turn exactly when that turn calls the new tool, not the spent one, and the directors in between let it through |
| DirectorSessions.OuterCanExceed | crates/omp-control/src/director.rs:239-273 | a session from an empty document that misses a tool twice which may be missed once |
| TerminalInput.DecodeEncode | crates/omp-cli/src/input.rs:222-249 | UTF-8 encoding then decoding gives the character back, and the first byte tells the parser the length |
| TerminalInput.Parser.Feed | crates/omp-cli/src/input.rs:108-110 | fed bytes go behind the pending ones |
| TerminalInput.Parser.Next | crates/omp-cli/src/input.rs:111-252 | the parsing loop returns the next event, or nothing, and keeps the state its stepwise definition gives |
| TerminalInput.ChunksDoNotMatter | crates/omp-cli/src/input.rs:107-252 | for well-framed streams, every split into chunks yields the same events and the same final state |
| TerminalInput.KeysAre | crates/omp-cli/src/input.rs:196-222 | each control character is its named key, or Control with its letter or the space bar |
| TerminalInput.MouseReport | crates/omp-cli/src/input.rs:160-186 | a mouse report is read up to its press letter, or its release letter unless a letter follows, and no further |
| TerminalInput.InputComesThrough | crates/omp-cli/src/input.rs:107-252 | typed characters, pastes and keys that send escape sequences, however chunked, come out as one key per character, one event per paste with the first 65,537 bytes of its body, and what the decoder makes of each sequence up to its final byte |
| Repetition.CountCopies | crates/omp-inference/src/corrective.rs:242-250 | counts the maximal run of copies |
| Repetition.CopiesAreThere | crates/omp-inference/src/corrective.rs:242-250 | the counted copies are really there, one after the other, and no further one follows |
| Repetition.SearchLength | crates/omp-inference/src/corrective.rs:230-260 | for one phrase length finds the leftmost run that repeats enough, or shows there is none, unless the budget ends |
| Repetition.DetectRepetitionLoop | crates/omp-inference/src/corrective.rs:203-263 | a hit has the longest qualifying length and its leftmost start; a miss within budget means there is none; the budget can only end when the scanned bytes times 101 exceed it |
| Repetition.BalanceDelimiters | crates/omp-inference/src/corrective.rs:158-199 | appends the owed closers, innermost first |
| Repetition.BalancedWhenOutsideStrings | crates/omp-inference/src/corrective.rs:158-199 | the result owes no closers exactly when none were owed or the text ended outside strings with no backslash pending |
| Repetition.CutIsCompleted | crates/omp-inference/src/corrective.rs:158-199 | a document cut off behind complete text, however deep in brackets, becomes the document whose open brackets end there |
| SoftWrap.VisualLines | crates/omp-cli/src/editor.rs:208-248 | the row loop yields the rows of every line, wrapped greedily, with an empty row after a full last one |
| SoftWrap.VisualCursor | crates/omp-cli/src/editor.rs:252-314 | the counting walk puts a cursor between clusters into the cell given by the layout of what stands before it |
| SoftWrap.RowsSpell | crates/omp-cli/src/editor.rs:208-248 | the drawn rows spell the buffer, nothing dropped or reordered |
| SoftWrap.LayoutsAgreeUnlessMisfit | crates/omp-cli/src/editor.rs:208-314 | for all clusters, the cursor's cell is a drawn row left of the right edge with exactly the text before the cursor drawn before it, exactly when the place is neither after a full row with a widthless cluster next nor at the end of a buffer whose last row is overfull |
| SoftWrap.LayoutsAgree | crates/omp-cli/src/editor.rs:208-314 | the layouts agree everywhere when every cluster takes between one column and the whole width |
| SoftWrap.MisfitsDisagree | crates/omp-cli/src/editor.rs:208-314 | both kinds of misfit occur |

## Left out

- Projection.SentWithinCharge: it allows the marker of omitted arguments and the token of a `null` on top of the charge, because the code sends them uncharged (`ChargeIsExact`). It speaks of body elements; the rendered fold headers are charged by constants that do not bound their text.
- Tokens.TruncatedFits: texts of 2^64 bytes and more are not considered, because the note prints the omitted length as a machine word.
- Compat.RankDecides: the other rules that tie and match must be ones the overlap test judges rightly: where it denies two ranges, the bounds and the model's revision are of the same kinds place by place, and where it denies a prefix, the strings are numbers and the prefix does not enter the range (`PrefixTestMisses`, `MixedRangesMisjudged`).
- Compat.PatternsMeet: outside it is what that test denies although the revision is common; where numbers meet other segments, which do not form an order, no exact condition is stated.
- Compat.ShadowedIsDead: for two ranges, each bound that decides must be shared or of the same kinds, place by place, as the other's bound and the model's revision (`CoverComparable`), because `covers` is wrong for mixed segments; it is a sufficient condition.
- RevisionPrefixes.SharesExactly: prefixes ending in one separator have `SeparatedSharesExactly`; those ending in a plus sign, which a number may start with, have no statement.
- CommandJournal.JournalCommutes: no session variable may be named `bind:` or `alias:` something (`PrefixedNameLeaks`), and the cheats flag needs `sv_cheats` to be saved (`UnsavedCheatsForgotten`). The `source` attribute and the provider, tool and job effects that the host adds around the patch are not part of it.
- DirectorSessions.SessionSurvivesReload: a session ends before a 32-bit attempt counter wraps around.
- TerminalInput.InputComesThrough: the escape timer never expires; Alt-prefixed keys and mouse reports are not among its pieces, because their reading depends on timing and chunks (`MouseReport` is about one step); what other escape sequences stand for is a parameter, and a paste carries bytes, before lossy decoding.
- SoftWrap.VisualCursor: segmentation and display widths are data, and the final narrowing to 16 bits is not modelled.
- Repetition.DetectRepetitionLoop: text is its UTF-8 bytes, and a character boundary is a byte that does not continue a character.
- Planner.Plan: failed writes may happen at any write; their causes, patch size limits and the journal file are not modelled. The order in which a fold or leaf lists elements is not claimed to be the order of the body.
- Planner.SessionStaysForest: a journal that is forked is covered path by path, as one session along each branch; the body may change in place, but an element in it stays in it.
- Tokens.DeriveBudget: the ratio is a real number; floating-point rounding is not modelled.
- Replica.CopyIsFaithful: document contents, operations, sessions and branches are numbers, with an arbitrary function for applying operations; file framing and checksums are represented by which records reach the disk. Offsets of one journal count from one without gaps.
- ConfigScripts.ScriptRoundTrip: paths are Unicode text; the lossy conversion of other paths is not modelled.
- CommandEngine.Engine.ExecuteOne: the arguments of the host's own verbs (tool calls, discovery, jobs, providers, effort) are checked by a parameter and their effects are opaque; error texts are shortened. Conversion of text by declared type is a parameter of each variable.
- Directors.OnYieldKeepsIdentity: whether the assistant's text asks a question or speaks of a plan is given with the turn; the word search is not modelled.
- Element names are numbers, since only their identity matters; tool-call identifiers are checked as text.
- Running the provider, tools and child sessions, the JSON repair loop around bracket closing, argument repair, rendering, completions and command-line handling would add foreign calls or case tables without an invariant.
- The transcript's elastic slots: the transcript source is not part of this model.
