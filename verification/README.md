# Verified models of campaign pacing, fact grounding and the normalisers

xchats sends paced outbound campaigns and drafts grounded replies to customers. This project models
the three parts of it that make promises a reader cannot check by looking at one function.

**Pacing.** A campaign account sends under several rolling caps at once, a minimum gap, and weekly
open windows. `Limits`, `Budget`, `Windows` and `Simulator` model the limiter and its forward
simulation on an integer clock of nanoseconds whose zero is a Monday midnight UTC, as the source's
zero time is. `SendLedger` adds the store around the limiter: claims read a pruned and windowed log,
and whole runs of claims and prunes are compared with a limiter that forgets nothing. `Projection` is
the projected finish, which no lawful schedule beats.

**Fact grounding.** A knowledge base is compiled into fact and media tokens (`Catalog`,
`MediaCatalog`, with `Facts`, `Mentions`, `Hierarchies` and `Registry`), read back by a second,
separately written lookup (`Resolver`, `Media`), and the two are proved to agree (`Agreement`,
`Readback`, `Coverage`), with `Collisions`, `FirstRows` and `MediaRows` saying exactly what happens
when refs are shared. `Wordings` reads resolved values back with readers of its own, and `Materials`
says row by row what media is offered and sent. A model's raw output is searched for its answer
(`Fences`, `Extraction`, `Transcripts`), gated and rewritten (`Placeholders`, `Literals`, `Contract`,
with `Answers` writing out the form an answer takes), retried at most once (`Retry`), and turned into
exactly one draft (`Engine`, `Service`). `ServiceTree` is the services slot of the prompt.

**Normalisers.** Weekly schedules and their classification (`Schedule`, `Shifts`, `ScheduleText`, and
`ClockTexts`, which reads the times back off the wording), campaign templates (`Templates`, and
`OneVariable` case by case), and recipient lists (`Phones`, `Recipients`, `Pastes`, `Previews`).

`Wrappers`, `Clock`, `Text`, `Decimals`, `Permutations`, `Firsts` and `KnowledgeBase` hold what the
others share. Code that changes state step by step is modelled by methods with loops and, where
objects are updated in place, by the classes `Catalog`, `Providers`, `Engine`, `DraftRepository` and
`Service` and by an in-place array sort; everything the source computes without updates is a
function. Model providers, the JSON decoder, the conversation and knowledge-base stores, prompt
rendering and the phrase checks are arbitrary functions: what is proved holds whatever they answer.
The decoder is assumed to consume at least one character, and no more than there are, when it accepts
a prefix.

Where a promise turned out to have an exception, the condition under which it holds is proved to be
exact, and `Witnesses` has a concrete input for those below marked with its lemma:

- The limiter notices a full cap through its width, so a cap of width 0 that is full refuses nothing.
  `Budgeting.VerdictExactIff` says for which tier lists the verdict means what it should
  (`Witnesses.ZeroWidthGoesUnnoticed`); every list that `ValidateTiers` accepts is one of them.
- Compilation rejects repeated refs only for services and delivery zones (`Witnesses.SharedRefCollides`).
  The tokens of an accepted knowledge base are pairwise distinct exactly when no two approved rows of a
  table share both a ref and a column they fill (`Collisions.TokensDistinctIff`), and every row reads
  back as itself exactly when the first approved row under each ref says the same as the later ones
  (`FirstRows.ReadBackIff`); for media, `MediaRows.MediaTokensDistinctIff` and
  `MediaRows.MediaReadBackIff`. None of this touches safety: whatever a token resolves to
  is a non-blank value that some approved row and column named by the catalog hold now
  (`Readback.ResolvedValueIsStored`), so the results about replies and drafts hold for every base.
- A salon's structured week leaves its free-text working hours without a token, and nothing else goes
  without one (`Coverage.CellCompilesIff`).
- A reply that passes the gate is rewritten unless a value it quotes itself holds a brace
  (`Contract.GateImpliesRewrite`, `Engines.BraceFreeBaseRewrites`, `Witnesses.BracedPriceIsRefused`).
- The columns of an uploaded row are visited in map order, so two columns under one header leave the
  variable undetermined exactly when they disagree (`Recipients.AttributesDetermined`,
  `Witnesses.RepeatedHeaderIsAmbiguous`).
- After unreachable rows are demoted, a duplicate may be left without a valid original:
  `Previews.DuplicatesKeepTheirValid` says when, `Witnesses.DuplicateLosesItsValid` shows one.

The engine's package comment still names the shop-kb-v4 prompt; the code calls the v7 functions, and
so does the model.

Running `dafny verify dfyconfig.toml` in this directory verifies the whole project.

## Model

| member | source | states |
|---|---|---|
| Limits.ValidateTiers | backend/campaign/validate.go:105-117 | accepts exactly the tier lists with widths from a minute to seven days, caps from 1 to 100000, and no width twice |
| Limits.RoomFrom | backend/campaign/budget.go:82-97 | in a sorted ledger a cap has room again exactly when its maxSends-th newest entry has aged out of the half-open window |
| Limits.PermissionNeverLapses | backend/campaign/budget.go:71-110 | for a fixed ledger, permission once reached holds at every later instant |
| Budgeting.FirstAfter | backend/campaign/budget.go:83-85 | the binary search returns the boundary: all before are at or before the cut, all from it on are after |
| Budgeting.Budget | backend/campaign/budget.go:78-110 | allowed, the first throttling tier, and nextSlotAt as the least instant from now on at which the send fits, fitting ever after; it is now exactly when the send fits now, which is what allowed says when no width-0 cap is uncovered |
| Budgeting.VerdictExactFrom | backend/campaign/budget.go:78-110 | from an instant on, the verdict is "every cap has room and the gap has passed" when no capped tier of width 0 is uncovered or no ledger entry is still to come |
| Budgeting.ValidTiersAreExact | backend/campaign/validate.go:105-117 | for every validated tier list it is that on every input |
| Budgeting.VerdictExactIff | backend/campaign/budget.go:78-110 | the verdict has that meaning on every input exactly for the tier lists without an uncovered capped tier of width 0 |
| Windows.ContainsCyclic | backend/automation/automation.go:122-136 | an instant lies in a window exactly when fewer minutes than its length have passed since it last opened, going around midnight and the week |
| Windows.WindowIsCyclicInterval | backend/automation/automation.go:100-136 | a validated window is one cyclic interval of 1 to 1440 minutes of the 10080-minute week |
| Windows.OpenIff | backend/campaign/budget.go:121-129 | no windows at all is open; the account and the campaign together are open exactly when each alone is; sides of valid windows are open together exactly inside one cyclic interval of each |
| Clock.KnownWeekdays | backend/automation/automation.go:122-136 | the weekday of an instant is the calendar's: 1970 begins on a Thursday, 9999 on a Friday |
| Windows.NextWindowOpen | backend/campaign/budget.go:220-232 | from a closed instant, the first open instant of all; fails exactly when no instant is ever open |
| Simulator.NextAllowedSlotWithin | backend/campaign/budget.go:195-213 | for any tiers and any fuel of at least 4: never exactly when nothing is ever open, else an open instant the budget grants, and wherever the verdict is exact the earliest one of all |
| Simulator.NextAllowedSlot | backend/campaign/budget.go:131-135 | so the 100000 iterations are never used up; the slot of valid windows lies inside a cyclic interval of each side that has any |
| Simulator.TrimmingKeepsVerdict | backend/campaign/budget.go:177-184 | ledger entries that every tier has forgotten change no present or later decision |
| Projections.Estimate | backend/campaign/budget.go:154-189 | now when nobody remains, the far future when nothing is ever open; wherever the verdict is exact, the last send of the greedy plan for the untrimmed ledger, and no lawful schedule of as many sends ends sooner |
| Simulator.GreedyIsOptimal | backend/campaign/budget.go:137-189 | send for send, no feasible plan is ahead of the greedy one |
| Simulator.FeasibleOnlyIfEverOpen | backend/campaign/budget.go:170-173 | "never" is answered only to a campaign that cannot send even once |
| SendLedger.SendKeepsCompliance | backend/campaign/budget.go:71-110 | recording a permitted send keeps every rolling interval, at every instant, within its cap |
| SendLedger.ClaimDecidesAsIfComplete | backend/internal/store/campaigns.go:1136-1166 | a claim that reads the windowed, pruned log decides as one that reads everything |
| SendLedger.RunRefinesIdeal | backend/internal/store/campaigns.go:1303-1322 | over any run of claims and prunes, exactly the sends a limiter with perfect memory makes |
| SendLedger.EveryRunIsSafe | backend/campaign/budget.go:71-110 | over every run no rolling interval exceeds its cap and consecutive sends keep the gap |
| SendLedger.NoLawfulScheduleIsFaster | backend/campaign/budget.go:137-189 | no schedule that obeys the caps, gap and windows by an independent account has its i-th send before the simulated one |
| SendLedger.GreedyIsLawful | backend/campaign/budget.go:137-189 | and the simulated schedule is itself lawful when the prior ledger is |
| Schedules.TextOrderIsMinuteOrder | backend/aiprompt/schedule.go:137-144 | text order on valid HH:MM is minute order, and distinct texts are distinct minutes |
| ClockTexts.EveryMinuteParses | backend/aiprompt/schedule.go:137-144 | all 1440 minutes of a day have a valid text that parses to them |
| ClockTexts.ValidIsWritten | backend/aiprompt/schedule.go:129-144 | and no other text is valid |
| Schedules.NormalizeBreaks | backend/aiprompt/schedule.go:170-205 | the adjacent-only check accepts exactly the break lists that are inside the shift and pairwise disjoint |
| Schedules.NormalizeSchedule | backend/aiprompt/schedule.go:156-212 | accepts exactly the acceptable schedules and returns their canonical form |
| ClockTexts.DayOKByMinutes | backend/aiprompt/schedule.go:156-205 | a written day is acceptable exactly when it is a weekday, its shift and breaks have minutes, those of the breaks are the shift's, and no two breaks share one |
| Schedules.CanonicalIsUnique | backend/aiprompt/schedule.go:156-212 | two canonical schedules with the same days and breaks are equal, so the sort used does not matter |
| Schedules.NormalizationIgnoresOrder | backend/aiprompt/schedule.go:156-212 | verdict and result are unchanged by permuting days and breaks |
| Schedules.NormalizationIsIdempotent | backend/aiprompt/schedule.go:146-212 | the stored form normalises to itself |
| Schedules.StoredShape | backend/aiprompt/schedule.go:156-212 | stored weekdays strictly increase; breaks are non-empty, inside the shift, each over before the next begins |
| Shifts.IntervalIsWorstPoint | backend/aiprompt/schedule.go:408-465 | an interval is off-shift iff some minute is, else break-overlap iff some minute is in a break, else on duty with every minute on duty |
| ScheduleText.FullTextBlankInEveryLanguage | backend/aiprompt/schedule.go:246-288 | whether a week has wording does not depend on the reply language |
| ClockTexts.DayTextTimes | backend/aiprompt/schedule.go:250-274 | the clock times in an acceptable day's wording, in text order, are its start, its end, and each break's start and end |
| ClockTexts.FullTextTimes | backend/aiprompt/schedule.go:280-288 | those in a week's wording are the times of its days, Monday first |
| ClockTexts.WordingNamesItsDay | backend/aiprompt/schedule.go:250-255 | a day's wording begins with the name of its weekday in the language asked for |
| ClockTexts.NamesDiffer | backend/aiprompt/schedule.go:229-244 | in either language no weekday goes by another's name |
| ClockTexts.MondayIsCapitalized | backend/aiprompt/schedule.go:290-296 | names get a capital letter, Kazakh ones included |
| Facts.ValidateFacts | backend/aiprompt/facts.go:269-337 | accepts exactly the seller-authored fact lists with legal, distinct, unreserved refs, safe values and no value mentioned in its own instruction or in prose |
| Facts.ExactValuesStayInFacts | backend/aiprompt/facts.go:305-336 | an accepted fact's exact value is mentioned neither in its own instruction nor in any prose of its row |
| Wordings.WholeNumberIsSafeIff | backend/aiprompt/facts.go:229-258 | a whole number as written, signed or not, is accepted exactly up to 2^53 - 1 |
| Hierarchies.WalkParents | backend/aiprompt/catalog.go:510-526 | the parent walk ends and succeeds exactly when the zone's chain reaches a root |
| Hierarchies.CheckZones | backend/aiprompt/catalog.go:488-547 | accepts exactly when rows are legal, refs distinct, parent links resolve and admit a rank they lower, and policies fit; whatever the map order |
| Hierarchies.CheckServices | backend/aiprompt/catalog.go:398-433 | accepts exactly the one-level hierarchies with distinct refs whose active children hang under active bases |
| Catalogs.Catalog.BuildFacts | backend/aiprompt/catalog.go:215-307 | accepts exactly the consistent knowledge bases and then appends every fact token in catalog order |
| MediaCatalog.BuildMedia | backend/aiprompt/catalog.go:639-708 | accepts exactly when every reference is a sendable material of its column's kind, and appends every media token and absence |
| Materials.MediaAcceptedIff | backend/aiprompt/catalog.go:714-755 | media is accepted exactly when slugs are legal and each reference an approved row holds is, by its own id, a stored non-empty visible file of the organization and of the column's kind |
| Materials.MediaCellIff | backend/aiprompt/catalog.go:567-708 | there is a media token of a table, ref and column, announcing a kind and a number, exactly when an approved row holds that many references of that kind there |
| Materials.AbsentIff | backend/aiprompt/catalog.go:639-708 | the rows listed as having no media are exactly the approved rows with none in any column |
| MediaCatalog.BuildCatalog | backend/aiprompt/catalog.go:61-74 | both together: success exactly for accepted knowledge bases, with the compiled facts and media |
| Registry.TokenNamesOneCell | backend/aiprompt/catalog.go:192-201 | a fact token names one table, row and column when tables and refs hold no dot |
| Agreement.CellsDistinct | backend/aiprompt/catalog.go:159-307 | the compiled facts of an accepted base without shared cells name pairwise different cells |
| Readback.TokensDistinct | backend/aiprompt/catalog.go:159-307 | and their tokens are pairwise distinct |
| Readback.EveryEntryReadsBack | backend/aiprompt/contract.go:695-864 | every compiled fact, seller-authored and schedule-derived ones included, reads back in every language as a non-blank value its own row and column hold |
| Readback.CompiledTokensResolve | backend/aiprompt/contract.go:667-693 | so every token of the catalog resolves to the current value of the very cell it names |
| Readback.ResolvedValueIsStored | backend/aiprompt/contract.go:667-864 | of any base, any catalog and any token: what resolves is a non-blank value that an approved row and column named by an entry of that token hold now |
| Wordings.ResolvedSaysWhatIsStored | backend/aiprompt/contract.go:667-864 | over every base that compiles, what resolves reads back, by readers of its own, as what an active row says now: the digits, the flag, the clock times, the minutes, the own or else the salon's booking link, the text |
| Wordings.FlagsReadBack | backend/aiprompt/registry.go:73-112 | in the language asked for, each flag's wording reads back as that flag |
| Decimals.ItoaIsDecimal | backend/aiprompt/contract.go:778-786 | a number's wording is its decimal form, without leading zeros |
| Wordings.DeliveryStateIsStored | backend/aiprompt/catalog.go:203-213 | the state shown to the model with an availability token is that of an active zone of its ref; no other token carries one |
| Coverage.EveryStoredCellCompiles | backend/aiprompt/catalog.go:159-307 | the converse: every non-blank approved value has a token for its cell, save the working hours that a salon's structured week replaces |
| Coverage.CellCompilesIff | backend/aiprompt/catalog.go:215-307 | a cell has a token exactly when an approved row holds something in it, superseded working hours excepted |
| Wordings.ZoneOffersItsTerms | backend/aiprompt/catalog.go:488-556 | an active zone of an accepted base has an availability token, and cost and days tokens exactly when it delivers |
| Collisions.TokensDistinctIff | backend/aiprompt/catalog.go:159-307 | tokens are pairwise distinct exactly when no two approved products, tariffs or specialists share both a ref and a column they fill |
| FirstRows.ProductReadsFirst | backend/aiprompt/contract.go:826-864 | a product's token, seller-authored ones included, says what the first visible row with its ref says, and nothing where that row is silent |
| FirstRows.TariffReadsFirst | backend/aiprompt/contract.go:842-873 | the same for tariffs |
| FirstRows.SpecialistReadsFirst | backend/aiprompt/contract.go:888-895 | the same for specialists and their schedule columns |
| FirstRows.ReadBackIff | backend/aiprompt/contract.go:667-895 | in each language, every row reads back as itself exactly when the first approved row under each ref says the same as the later ones |
| MediaRows.MediaTokensDistinctIff | backend/aiprompt/catalog.go:639-708 | media tokens are pairwise distinct exactly when no two owners under one table and ref hold references in the same column |
| MediaRows.MediaReadsFirst | backend/aiprompt/contract.go:961-1041 | a media token stands for the references of the first owner under its ref, and fails where that one has none |
| MediaRows.MediaReadBackIff | backend/aiprompt/contract.go:1006-1041 | every owner's references read back as its own exactly when the first owner under each table and ref, topics included, holds the same |
| Witnesses.ZeroWidthGoesUnnoticed | backend/campaign/budget.go:78-110 | a full cap of width 0 with an entry after now: granted, though the cap has no room |
| Witnesses.SharedRefCollides | backend/aiprompt/catalog.go:215-241 | two products under one ref at prices 1 and 2 are accepted, with colliding tokens and the second price unread |
| Witnesses.BracedPriceIsRefused | backend/aiprompt/contract.go:921-941 | a price that holds a brace: the reply quoting it passes the gate and its rewriting is refused |
| Witnesses.RepeatedHeaderIsAmbiguous | backend/campaign/recipients.go:318-325 | the header phone,city,city gives a row with two cities two sets of attributes |
| Witnesses.DuplicateLosesItsValid | backend/campaign/recipients.go:131-153 | the same phone on two lines, then unreachable: the duplicate has no valid row |
| MediaCatalog.CompiledMediaResolve | backend/aiprompt/contract.go:961-1041 | every compiled media token resolves to as many materials as announced, those of its own row and column |
| MediaCatalog.EarlierTokenDiffers | backend/aiprompt/catalog.go:639-708 | media tokens are pairwise distinct |
| Media.ResolveSend | backend/aiprompt/contract.go:961-1004 | succeeds exactly when every token resolves alone; lists each id of their union once, at its first occurrence, under the token that first asked for it |
| Materials.ResolvedMediaIsStored | backend/aiprompt/contract.go:961-1041 | of any base and any list of media: what a token resolves to is the list an approved row named by it holds now, each a material that may be sent |
| Materials.SentIsSendable | backend/aiprompt/contract.go:961-1004 | everything sent is a visible stored material of the organization, held by the row its token names |
| Media.FirstOccurrencesInOrder | backend/aiprompt/contract.go:961-1004 | first occurrences stand in the order in which they first appear |
| Placeholders.ScanLosesNothing | backend/aiprompt/contract.go:141-141 | the scanned pieces put together are the text |
| Placeholders.SlotsArePlaceholders | backend/aiprompt/contract.go:141-141 | whatever the scan calls a slot is a placeholder |
| Placeholders.PlainStartsNoPlaceholder | backend/aiprompt/contract.go:141-141 | leftmost and complete: no plain character begins a placeholder of what is left |
| Placeholders.ScanStep | backend/aiprompt/contract.go:141-141 | a text without braces, a placeholder, and what follows are scanned as that |
| Mentions.ContainsLiteral | backend/aiprompt/contract.go:610-647 | found exactly when the folded text holds the folded value somewhere as whole words |
| Mentions.MentionedIff | backend/aiprompt/contract.go:610-647 | in other words: the folded text is the folded value with something before and after it, neither running on in the same word |
| Literals.FindLeaks | backend/aiprompt/contract.go:416-453 | empty exactly when the text mentions no value that one catalog token alone resolves to |
| Literals.LeaksNothingIff | backend/aiprompt/contract.go:416-453 | which is to say: fact by fact, the text mentions no resolved value that no other fact's folds to |
| Contract.ValidateFactContract | backend/aiprompt/contract.go:366-458 | no issue exactly when no media token is in the text, every placeholder resolves, no brace and no value of exactly one token is left outside them, and no phrase check objects |
| Contract.ContainsTextIff | backend/aiprompt/contract.go:366-380 | a media token is in the text exactly when the text is something, the token, and something |
| Contract.ValidateResponse | backend/aiprompt/contract.go:248-312 | no response exactly for undecodable or wrongly typed input; otherwise no issue exactly for clean input, with shape and media codes exact |
| Answers.TypedIff | backend/aiprompt/contract.go:319-358 | an object has no field of a wrong type exactly when some answer, encoded, agrees with every field it has; it is then read as that answer, with zero values for what it lacks |
| Answers.CleanIsAnswer | backend/aiprompt/contract.go:248-312 | the shape is clean exactly for the encoding of an answer in Russian or Kazakh with at most the three diagnostic fields beside it, and decoding gives that answer back |
| Contract.SubstituteFacts | backend/aiprompt/contract.go:921-941 | succeeds exactly when every placeholder resolves and the result has no brace; the result is the text with each placeholder replaced in place |
| Contract.RewrittenStep | backend/aiprompt/contract.go:921-941 | place by place: plain text stays, a placeholder that resolves gives way to its value, and so on with the rest |
| Contract.GateImpliesRewrite | backend/aiprompt/contract.go:366-404 | an issue-free reply has every placeholder resolving, and its rewriting holds a brace exactly when a quoted value does |
| Engines.BraceFreeBaseRewrites | backend/aiprompt/contract.go:921-941 | over a base that stores no brace under its catalog, every issue-free reply is rewritten |
| FencedBlocks.FenceAtIsExact | backend/aiprompt/finaljson.go:174-174 | scanning at one place finds a fence exactly when one is there |
| FencedBlocks.FencesAreFences | backend/aiprompt/finaljson.go:174-196 | what the scan of a text finds are fences |
| FencedBlocks.FenceIsFound | backend/aiprompt/finaljson.go:174-196 | leftmost and complete: a fence is found unless it begins inside one that is |
| Transcripts.WrittenFenceIsFound | backend/aiprompt/finaljson.go:174-196 | ticks, a word, a line, a body without ticks and ticks, after a text without ticks, are found as that fence around that body |
| Extraction.BalancedAreObjects | backend/aiprompt/finaljson.go:208-224 | every balanced candidate is the object decoded from an opening brace outside every fence |
| Extraction.ObjectIsFound | backend/aiprompt/finaljson.go:208-224 | and every such object is a candidate unless it begins strictly inside one |
| Extraction.FenceIsCandidate | backend/aiprompt/finaljson.go:180-196 | a fence whose trimmed body decodes is a candidate with that body and the fence's bounds |
| Extraction.CandidateInFence | backend/aiprompt/finaljson.go:180-228 | every candidate that starts inside a fence is one of these |
| Extraction.SortByStart | backend/aiprompt/finaljson.go:246-252 | the in-place insertion sort orders by start and permutes |
| Extraction.ScanCandidates | backend/aiprompt/finaljson.go:180-228 | all fenced and balanced candidates, ordered by start; the scan ends |
| Extraction.ExtractFinal | backend/aiprompt/finaljson.go:103-129 | the whole input when it is an answer, else the acceptable candidate that starts last, else nothing, with how it was found |
| Extraction.FencedAnswerIsFound | backend/aiprompt/finaljson.go:103-129 | a complete answer in a fence amid prose is never lost |
| Transcripts.LastAnswerWins | backend/aiprompt/finaljson.go:103-129 | an answer found amid other text is complete, and no complete one starts after it |
| Transcripts.FencedAnswerIsRead | backend/aiprompt/finaljson.go:103-228 | a complete answer written in a fence, after any text without ticks and before any without ticks and braces, is the one that is read unless the whole output is one |
| Extraction.WholeAnswerIsFound | backend/aiprompt/finaljson.go:103-116 | an output that is one operational object is the answer as it stands, and so is one wrapped in a fence from end to end |
| Extraction.EmbeddedIsComplete | backend/aiprompt/finaljson.go:118-128 | an answer found amid other text has every operational field, each of its type |
| Extraction.FenceStripsOff | backend/aiprompt/contract.go:153-156 | a body between whole-line fences is what stripping leaves of them |
| Extraction.RemainderIsKept | backend/aiprompt/finaljson.go:257-268 | the remainder is all the output around the answer, in order, white space aside |
| Extraction.ExtractionIsUnique | backend/aiprompt/finaljson.go:103-129 | no two candidates start together, so an output has one extraction |
| Extraction.FinalIsSpan | backend/aiprompt/finaljson.go:92-129 | the extracted text is a contiguous part of the raw output and decodes with an operational field |
| Retry.ClassifyRetry | backend/aiprompt/retry.go:68-94 | contract_shape, media_not_found or none, read off the one extraction, shape first |
| Answers.ReasonMeans | backend/aiprompt/retry.go:68-94 | contract_shape exactly when what was extracted is no answer in Russian or Kazakh, media_not_found exactly when it is one whose media do not all resolve, none exactly when they do |
| Retry.SomeTokenIsBad | backend/aiprompt/retry.go:106-124 | a list fails exactly when some token on it fails alone |
| Retry.RetryFeedback | backend/aiprompt/retry.go:99-131 | feedback exactly for media_not_found; every token that fails alone, at least one, stands in the text, one after another in the order asked for |
| Engines.RetryPromptNamesBadTokens | backend/response/engine.go:166-179 | the second prompt of a media retry holds every token of the first answer that resolves to nothing alone |
| Engines.Judgement | backend/response/engine.go:181-214 | one raw output: success with the rewritten accepted reading, failure exactly when there is none that rewrites free of braces |
| Engines.Engine.Ask | backend/response/engine.go:166-179 | one completion, and a second with feedback to the same model exactly when the first succeeds, asks for it and retries are on; the last one's answer or error is returned, and every completion is reported |
| Engines.Engine.Generate | backend/response/engine.go:119-215 | at most two completions whatever they answer; success only from a grounded reading, failure only for a named cause |
| Engines.OneOutcome | backend/response/engine.go:119-215 | no exchange both yields a result and justifies an error |
| Engines.DeliveredIsGrounded | backend/response/engine.go:119-215 | a delivered text is an accepted reading that needs no retry, brace-free, over any base: each placeholder a value stored now, no value of one token alone written out around them, no media token named and no phrase objected to, in Russian or Kazakh, its media all resolving |
| Services.Service.Generate | backend/response/service.go:68-109 | the draft its exchange earned: the grounded result, or the holding draft |
| Services.Service.HoldingDraft | backend/response/service.go:118-128 | field by field: the canned text in Russian, escalated, no confidence, the cause behind engine_error, stamped by the engine, for the conversation asked about |
| Services.Service.Respond | backend/response/service.go:51-66 | nothing handed over for a conversation that fails to load or is on another channel; exactly one draft otherwise |
| Services.CallsAreWellAddressed | backend/response/engine.go:146-179 | whatever becomes of it, each call goes to the override if there is one, else for an image to the vision model if one is configured, else to the default model, with the base the draft stands on rendered for its channel |
| Services.OnlyItsBaseMatters | backend/response/service.go:68-80 | an override takes the place of the stored base: services that read or are given the same base earn the same drafts |
| Services.EveryDraftIsSafe | backend/response/service.go:51-128 | whenever the base does not load or the engine yields nothing, the draft is the escalated canned text with its reason and gap, field by field; otherwise, for arbitrary model outputs over any base the service loads or is given, it is grounded: brace-free, quoting only stored values and writing out none, its media all resolving |
| ServiceTrees.RenderServices | backend/aiprompt/prompt.go:769-820 | the built blocks are the categories in first-seen order, each with its bases in input order and their children after them |
| ServiceTrees.EmittedExactly | backend/aiprompt/prompt.go:769-820 | of any list: exactly the active bases, and the active children of active bases |
| ServiceTrees.TreeConserves | backend/aiprompt/catalog.go:398-433 | of an accepted list: every active service exactly once and no inactive one |
| ServiceTrees.BlockOrder | backend/aiprompt/prompt.go:790-820 | each child directly under its own base; a category's bases in input order |
| ServiceTrees.ChildrenOrder | backend/aiprompt/prompt.go:790-820 | under a base of an accepted list stand all its active children, in input order |
| Templates.MatchAtIsExact | backend/campaign/render.go:10-10 | scanning at one place finds a variable exactly when one is there |
| Templates.MatchesAreAll | backend/campaign/render.go:10-10 | and scanning a template finds them all |
| Templates.ExtractVariables | backend/campaign/render.go:88-100 | the distinct variables in order of first appearance |
| Templates.Render | backend/campaign/render.go:27-81 | the template with one edit per variable spliced in, spaces collapsed, trimmed |
| Templates.RenderingMeans | backend/campaign/render.go:17-81 | edits are in order and disjoint, take out the placeholder and at most one adjacent separator of an empty one, the one before first; kept and cut parts together are the template; no double space is left |
| Templates.FilledRendersPlainly | backend/campaign/render.go:17-26 | with no empty variable this is plain substitution |
| Templates.OnlyNamedVariables | backend/campaign/render.go:83-100 | rendering depends on the extracted variables only |
| OneVariable.FilledGivesItsText | backend/campaign/render.go:27-81 | a filled variable gives way to its own trimmed text and nothing else changes |
| OneVariable.EmptyTakesSeparatorBefore | backend/campaign/render.go:46-61 | an empty or missing one goes with the comma, semicolon or dash before it |
| OneVariable.EmptyTakesSeparatorAfter | backend/campaign/render.go:63-76 | with none before, with the one after it |
| OneVariable.EmptyAloneGoes | backend/campaign/render.go:27-81 | and with neither, alone |
| Templates.CollapseFixes | backend/campaign/render.go:102-109 | collapsing changes exactly the texts with a double space |
| Templates.CollapseStep | backend/campaign/render.go:102-109 | and dropping one space of a pair first makes no difference |
| Phones.PhoneIsPlausible | backend/campaign/recipients.go:404-418 | for every accepted country code: accepted exactly with 7 to 15 digits, yielding 7 to 15 digits |
| Phones.PhoneIsStable | backend/campaign/recipients.go:404-418 | a normalised phone normalises to itself |
| Phones.ForeignNumberKept | backend/campaign/recipients.go:398-414 | a plausible number keeps its digits exactly when it is neither a bare national nor a trunk-prefixed one |
| Phones.SameIdentityIff | backend/campaign/recipients.go:404-418 | two accepted texts share an identity exactly when their digits are equal or both spell one national number |
| Phones.SpellingsAgree | backend/campaign/recipients.go:391-403 | trunk, bare and international spellings of a national number are one identity |
| Phones.PunctuationIsIgnored | backend/campaign/recipients.go:404-428 | whatever is written between the digits, a number is read the same |
| Phones.DigitsAreKept | backend/campaign/recipients.go:420-428 | and the digits themselves are kept where they stand |
| Phones.PlausibleExactlyFor | backend/campaign/validate.go:55-68 | the result is always plausible exactly for codes of at most five characters, all digits |
| Phones.NormalizeTelegramChatID | backend/campaign/recipients.go:359-378 | the trimmed text, exactly when it is an optional minus sign and digits |
| Recipients.SplitLosesNothing | backend/campaign/recipients.go:173-203 | the parts of a split, joined again, are the text, and none holds the separator |
| Recipients.ListsAreRows | backend/campaign/recipients.go:157-182 | a list written one cell per line, or on one line with one separator, is read back as written |
| Pastes.LineEndsDoNotMatter | backend/campaign/recipients.go:157-159 | lists written with Windows or old Mac line ends are read as with plain ones |
| Pastes.TablesAreRead | backend/campaign/recipients.go:157-203 | a table of several columns, written line by line with one separator, is read back cell by cell |
| Pastes.HeadersHoldNoPhone | backend/campaign/recipients.go:205-224 | a row with a phone number is never taken for a header, nor the only row; a first row without digits and with others below it always is |
| Recipients.ResolveColumns | backend/campaign/recipients.go:239-301 | the first recognised phone and name columns, else the leftmost with most digits or the positional layout, and the rest as attributes |
| Recipients.AttributesDetermined | backend/campaign/recipients.go:318-325 | a row's attributes are determined exactly when columns under one header do not disagree in it |
| Recipients.ParseRow | backend/campaign/recipients.go:312-357 | identity or reason by channel, name and attributes from the resolved columns |
| Pastes.IdentityByChannel | backend/campaign/recipients.go:331-378 | a Telegram recipient is exactly a chat id as written, any other exactly a phone number of 7 to 15 digits, normalised |
| Pastes.PlainRowIsRead | backend/campaign/recipients.go:273-288 | without a header the first cell is the identity, of two the second the name, and of more the others attributes by place |
| Pastes.HeadedRowIsRead | backend/campaign/recipients.go:239-271 | under a header with one phone and one name column a row has those two cells and each other filled cell under its own header, and nothing else |
| Recipients.ParseRecipients | backend/campaign/recipients.go:91-129 | one row per data row in order, a duplicate exactly when an earlier row has its identity, and counters that equal a recount |
| Previews.BucketsMean | backend/campaign/recipients.go:86-129 | valid identities are pairwise distinct, every duplicate has an earlier valid row, and the valid identities are all the data stands for, in whatever order |
| Previews.CountsAddUp | backend/campaign/recipients.go:34-42 | the three counters add up to the rows |
| Previews.ApplyUnreachable | backend/campaign/recipients.go:138-153 | demotes exactly the valid unreachable rows and keeps the counters a recount |
| Previews.UnreachableMeans | backend/campaign/recipients.go:131-153 | what is valid afterwards is what was valid and reachable, still distinct, and each duplicate's original is accounted for |
| Previews.DuplicatesKeepTheirValid | backend/campaign/recipients.go:131-153 | every duplicate still has an earlier valid row exactly when no duplicate's identity is unreachable |
| Previews.ChecksCompose | backend/campaign/recipients.go:131-153 | two checks in a row bucket the rows as one check of both would |

## Left out

- Projections.Estimate: a negative minimum interval, which `ValidatePace` rejects, is taken only when no ledger entry lies after now, as the ledger would not stay sorted otherwise, and optimality is stated for intervals that are not negative; the last send instant is an option instead of the zero time.
- SendLedger.EveryRunIsSafe: jitter enters only as the interval each claim is made with, and database locking is one atomic step per claim.
- Readback.CompiledTokensResolve: refs of products, tariffs and specialists are taken as unique, as the store keys them; what shared refs do is stated by the exact results above.
- Catalogs.Catalog.BuildFacts: entries carry no label and no usage note, which only the prompt shows.
- MediaCatalog.BuildMedia: entries carry no label.
- MediaCatalog.BuildCatalog: entries carry no label and no usage note.
- MediaCatalog.CompiledMediaResolve: topic slugs are taken as unique too.
- ServiceTrees.RenderServices: blocks are entries in order; the text lines of one entry are not modelled.
- Recipients.ResolveColumns: lower-casing of header cells is an arbitrary function.
- Extraction.ExtractFinal: text positions are characters, not bytes.
- Mentions.ContainsLiteral: folding of case and spacing and the word characters are arbitrary functions.
- Contract.ValidateFactContract: the schedule and confirmation phrase checks are one arbitrary function that may add issues; error texts are simplified.
- Contract.ValidateResponse: exactness per code is stated for shape and media codes; the diagnostic fields and their sanitising are an arbitrary function, never a reason to reject.
- Engines.Engine.Generate: prompt prose, leak gates on the rendered prompt, history and attachment labels are one arbitrary rendering function and a given tail; image parts and sampling settings of a call are not modelled.
- Int64 and duration overflow: the clock is unbounded.
- The nil knowledge-base and nil catalog paths of validation, which the engine never takes.
- The sort of days and breaks uses insertion on sequences; the canonical form is proved unique, so any sort gives it.
- Feedback branches for media_not_found that extraction makes unreachable.
- The v4 to v6 twins of the v7 functions, the evaluation harness, the frontend, HTTP and SQL adapters.
