# Verified model of the QQ bot service's core algorithms

The project models the self-contained algorithms and state machines inside the bot service and
proves what they promise: the token budget of a model request, the masking of QQ numbers, the
administrator's sessions and credentials, outbound delivery with retries, the agent's tool loop,
retry and failover between model profiles, streamed answers, the browser's "page is complete"
decision, and the chunking of recognised text. `dafny verify dfyconfig.toml` checks all of it.

## How to read it

Each component has a module of functions that say what every operation does. Where the program
computes with loops or updates objects, methods and classes of the same shape are proved equal to
those functions, and the properties are lemmas about the functions, for all inputs, runs and answers
of the environment.

| component | modules |
|---|---|
| token budget | `Text`, `TokenCost`, `Messages`, `ContextBudget`, `BudgetOrder`, `BudgetTheorems`, `BudgetPolicy`, `BudgetEdges` |
| QQ-number masking | `Masking`, `QQPrivacy`, `PrivacyRoundTrip`, `PrivacyOrder`, `PrivacyRestore`, `PrivacyLeaks`, `PrivacyScope` |
| administrator sessions | `AdminSessions`, `AdminTheorems`, `AdminAuthentication` |
| outbound delivery | `OutboundGate`, `OutboundDelivery`, `OutboundOutcome`, `GroupBlocking` |
| agent loop | `AgentRunner`, `AgentTheorems`, `AgentOutcome`, `AgentTime` |
| retry and failover | `LLMRetry`, `Failover` |
| streams, rendering, OCR | `StreamText`, `StreamOrder`, `RenderStability`, `RenderTracker`, `OCRChunks` |

Conventions:

- A text is a sequence of code points. Times and token counts are integers.
- Whatever the environment answers (a model, a tool, a clock, a failing write, a cancelled context)
  is a parameter or a script, and the lemmas hold for every script.
- A random token is a number never drawn before, and a hash is a constructor: equal hashes mean
  equal tokens.
- The two administrator files are two cells whose writes are atomic and may fail.
- A sort is an insertion sort; `BudgetOrder.RankingIsUnique` shows that the comparators leave only one
  order, so the choice of algorithm does not matter.

## Where the code falls short of what one would expect

Each of these is kept as the code has it and delimited by a lemma.

- *A trimmed message can cost more than its budget.* When images are kept, no text part is, and the
  leftover does not pay for one code point of the content, the content stays whole
  (`Messages.StrandedContentOverruns`). `Messages.TrimMessageCost` gives the exact cost and
  `Messages.TrimMessageFits` says when it is within the budget. Messages with text only in the content
  or only in the parts (`Plain`) never overrun.
- *So a second fit can change what the first one left*: `BudgetEdges.RefitCanChange` gives a message.
  It changes nothing once the result is within the budget (`BudgetTheorems.FitIsIdempotent`). And a
  system instruction that overruns can silence another: `BudgetEdges.InstructionCanBeSilenced`.
- *The safety reserve of 128 tokens is not always kept.* `BudgetPolicy.WindowIsRespected` says when it
  is, and that the window is never exceeded by more than one overrun.
- *A registered number written twice in a row stays half visible.* After every candidate the masking
  restarts as if no digit stood before it. `PrivacyLeaks.ShowsNumberIff` says exactly which texts leak.
- *An alias already in the text is turned into a number.* `PrivacyRestore.RoundTripIff` says that the
  round trip works exactly for the texts without aliases, unless the only aliases in the text have a
  digit right behind them. For those it can depend on the order in which equally long aliases are
  replaced, which the program does not determine (`PrivacyRestore.OrderMatters`).
- *An alias may hold a registered number, and is then masked itself.* The round trip works as long as
  masking a later number leaves each earlier alias as it is (`PrivacyRoundTrip.RoundTrip`), and always if
  the aliases are looked for in the reverse order (`PrivacyOrder.ReverseRoundTrip`). The program looks for
  longer aliases first instead, and can leave an alias in place of a number: `PrivacyOrder.TwoNumbersIff`
  says exactly when it does for two numbers.
- *A group that is blocked can still be called*, by exactly those invocations that passed the check
  before: the block is not looked at again before the call or its retries
  (`GroupBlocking.PassedCheckStillCalls`, `GroupBlocking.BlockHolds`).
- *A cancelled context during a cooldown starts the cooldown anew, with the caller's own length*, which
  can shorten it and let a call through (`OutboundDelivery.ShortCooldownCutsIn`). A cooldown holds in
  every run if and only if no policy in use would cool down for less than what is left of it:
  `OutboundDelivery.CooldownHoldsIff`.
- *An attempt's timeout can exceed the configured one*, exactly when the delays alone outlast the
  deadline and more than the configured timeout is left: `LLMRetry.TimeoutExceedsConfigured`.
- *A logout whose write fails ends the session in memory only*; after a restart it is back, exactly
  when the file still has it: `AdminTheorems.FailedLogoutComesBack`.
- *The agent's finalization reserve shrinks threefold with every phase that uses all its time*
  (`AgentTime.WorstIsThirds`, `AgentTime.WorstIsReached`). The configured reserve is sure to be left if and
  only if there is one phase and three times the reserve to begin with: `AgentTime.ReserveIsKeptIff`.
- *A completed text is the answer only if it continues what was streamed.* Otherwise it is dropped where
  the streamed text continues it, and appended where neither continues the other:
  `StreamText.ReconcileAdopts`, `StreamText.CompletedTextWins`.

## Model

| member | source | states |
|---|---|---|
| Text.TrimSpaceIsSlice | model/llm/context_budget.go:360-382 | trimming cuts a run of spaces off each end, and the rest neither starts nor ends with a space |
| TokenCost.EstimateTextTokens | model/llm/context_budget.go:262-287 | the loop with its running ASCII run computes the cost of the text: a third of each ASCII run, rounded up, and two or four tokens per other code point |
| TokenCost.CostOfAscii | model/llm/context_budget.go:262-287 | ASCII alone costs a token for every three characters, rounded up |
| TokenCost.CostAroundWide | model/llm/context_budget.go:262-287 | any other code point costs two tokens, or four beyond the basic plane, and parts the ASCII on its two sides; with CostOfAscii this fixes the cost of every text |
| TokenCost.CostOfConcat | model/llm/context_budget.go:262-287 | splitting a text saves nothing and costs at most one token more |
| TokenCost.CostOfSlice | model/llm/context_budget.go:262-287 | the estimator is monotone: a piece of a text costs at most the text |
| TokenCost.SearchClip | model/llm/context_budget.go:368-380 | the binary search returns the clip of the length that the search over the predicate "fits the budget" ends on |
| TokenCost.SearchEndsAtAnEdge | model/llm/context_budget.go:368-380 | whatever the predicate, monotone or not, the search ends on a length that fits, or none, whose successor does not fit |
| TokenCost.TrimTextToTokenBudget | model/llm/context_budget.go:360-382 | the method computes the specification TrimText, whose laws are the next rows |
| TokenCost.ClipKeepsAnchor | model/llm/context_budget.go:384-402 | every clip of positive length keeps the first code point (prefix) or the last one (middle cut) |
| TokenCost.ClipKeeps | model/llm/context_budget.go:384-402 | how much of the text a clip of a given length keeps: up to 28 code points only a prefix, or only a suffix; beyond that the marker and, before and behind it, all that the marker leaves, in halves for the middle cut, the head at most one longer |
| TokenCost.TrimTextIsEdgeClip | model/llm/context_budget.go:360-402 | a text over the budget becomes the trimmed clip of some length that fits while one code point more would not |
| TokenCost.TrimTextFits | model/llm/context_budget.go:360-382 | a non-empty result costs at most the budget and is trimmed |
| TokenCost.TrimTextSurvives | model/llm/context_budget.go:360-402 | something is kept if and only if the text is not blank and the budget pays for the one code point every clip contains; four tokens always do |
| TokenCost.TrimTextKeepsEnd | model/llm/context_budget.go:360-402 | what is kept of a text begins as the text does (prefix), or ends as it does (middle cut) |
| TokenCost.FittingTextStays | model/llm/context_budget.go:360-367 | a text that fits is kept whole, up to the spaces around it |
| Messages.EstimateMessageTokens | model/llm/context_budget.go:237-260 | the loop over the parts adds up overhead, content, texts and images, counting the content only when no part carries text |
| Messages.ImageSizes | model/llm/context_budget.go:289-300 | the four sizes of an image, and that every other word means the automatic one |
| Messages.ImageWordIsFolded | model/llm/context_budget.go:289-300 | capitals and surrounding spaces do not matter in that word |
| Messages.EstimateMessagesTokens | model/llm/context_budget.go:229-235 | the cost of a list is the sum of the costs |
| Messages.CollectParts | model/llm/context_budget.go:313-345 | the loop keeps, shortens or drops each part in order, exactly as KeepParts says |
| Messages.KeepPartMeans | model/llm/context_budget.go:313-345 | a text part is kept if and only if it is not blank and two tokens more than its anchor remain, whole if all of it fits; an image if and only if it has an address and fits; nothing else |
| Messages.TrimMessageToTokenBudget | model/llm/context_budget.go:302-354 | the method computes the specification TrimMessage |
| Messages.KeepPartCharge | model/llm/context_budget.go:313-345 | a kept part is charged what it costs, never more than what remained |
| Messages.KeepPartsConserve | model/llm/context_budget.go:313-345 | cost of the kept parts plus remainder is the budget, and the remainder is not negative |
| Messages.TrimMessageCost | model/llm/context_budget.go:302-354 | exact cost of a trimmed message, and by how much the content that stands in for a missing text part decides whether it fits |
| Messages.TrimMessageFits | model/llm/context_budget.go:302-354 | with parts: fits with a kept text part; without one, if and only if a blank content is paid for, never when one code point of the content is not, and with two tokens to spare when all of it is |
| Messages.TrimMessageOverrun | model/llm/context_budget.go:302-354 | for every message, the overrun is at most the cost of the content or two tokens, and nothing for plain messages; role and priority are kept |
| Messages.TrimMessageKeepsEnd | model/llm/context_budget.go:302-358 | a message without parts keeps its beginning at priority 80 or 60 and its end at any other |
| Messages.StrandedContentOverruns | model/llm/context_budget.go:346-353 | the failing family: stranded content is kept whole and the message costs more than its budget |
| Messages.TrimMessageCanOverrun | model/llm/context_budget.go:346-353 | one concrete message of that family |
| Messages.LeadIsKept | model/llm/context_budget.go:313-345 | with six tokens for the parts, a visible text part before any image is kept, in front |
| Messages.SpeakingSurvives | model/llm/context_budget.go:302-354 | with 16 tokens every message that says something before any image is kept, still does so, and fits |
| ContextBudget.SelectRequiredMessagesProportionally | model/llm/context_budget.go:175-213 | the loop computes Proportional: each slot gets its share, bounded below by the minimum and above by what later slots need |
| ContextBudget.TakeAll | model/llm/context_budget.go:134-162 | taking messages whole charges each its cost |
| ContextBudget.Split | model/llm/context_budget.go:145-168 | the required messages of one kind, in order |
| ContextBudget.SelectRequiredMessages | model/llm/context_budget.go:110-173 | the method computes SelectRequired: all whole, or the protected whole and the flexible in proportion, or all in proportion |
| ContextBudget.RankCandidates | model/llm/context_budget.go:53-64 | the candidates with their effective priorities and costs, ranked |
| ContextBudget.FillGreedily | model/llm/context_budget.go:69-91 | the loop over the ranking computes Greedy |
| ContextBudget.CollectSelected | model/llm/context_budget.go:98-104 | the chosen messages in conversation order |
| ContextBudget.FitMessagesToTokenBudget | model/llm/context_budget.go:45-105 | the whole method computes Fit |
| ContextBudget.ApplyContextBudget | model/llm/context_budget.go:25-43 | input budget from window, output reserve and safety reserve; without a window nothing is touched |
| BudgetOrder.RankingOrder | model/llm/context_budget.go:59-64 | the ranking lists every message once and strictly follows the comparator |
| BudgetOrder.RankingIsUnique | model/llm/context_budget.go:59-64 | any list of the candidates sorted by the comparator is this ranking, and any list of its required ones sorted by index is theirs in conversation order |
| BudgetOrder.RequiredInOrder | model/llm/context_budget.go:111-133 | sorting the required ones out of the ranking by index gives them in conversation order |
| BudgetTheorems.TakeWholeAccounts | model/llm/context_budget.go:134-162 | conservation: cost of the chosen plus remainder stays the budget, and every item is chosen unchanged |
| BudgetTheorems.ProportionalAccounts | model/llm/context_budget.go:175-213 | conservation over the proportional loop, touching only its own items |
| BudgetTheorems.ConsiderAccounts | model/llm/context_budget.go:69-91 | conservation over one step of the greedy fill |
| BudgetTheorems.GreedyAccounts | model/llm/context_budget.go:69-91 | conservation over the greedy fill |
| BudgetTheorems.SelectOrderedAccounts | model/llm/context_budget.go:110-173 | conservation over all three ways of the required selection |
| BudgetTheorems.SelectAccounts | model/llm/context_budget.go:45-105 | conservation over the whole selection: cost of the chosen plus remainder is the budget, and the remainder is no less than minus one overrun |
| BudgetTheorems.FitWithinBudget | model/llm/context_budget.go:45-105 | the output costs at most the budget plus one overrun, hence at most the budget for plain messages; without budget it is empty |
| BudgetTheorems.FitIsIdempotent | model/llm/context_budget.go:45-105 | refitting changes nothing once the result is within the budget, as it always is for plain messages |
| BudgetEdges.OnlyMessage | model/llm/context_budget.go:45-105 | a message that is alone and too large is trimmed to the whole budget |
| BudgetEdges.RefitCanChange | model/llm/context_budget.go:346-353 | one message whose first fit overruns by two tokens, so that a second fit changes it |
| BudgetPolicy.MaxOverrunBounds | model/llm/context_budget.go:302-354 | the largest overrun of a list bounds each message's, and is zero for plain messages |
| BudgetPolicy.AllocationServes | model/llm/context_budget.go:191-204 | with the minimum for every slot in hand, a slot gets at least its minimum and leaves the others theirs |
| BudgetPolicy.AllocationIsProportional | model/llm/context_budget.go:191-204 | a share that neither bound cuts is the exact proportional share, rounded down |
| BudgetPolicy.AllocationIsClamped | model/llm/context_budget.go:191-204 | every case of a share, for any number that is the rounded-down proportional share: itself within its bounds, the upper bound above it, 16 where either is below 16, all there is below 16 |
| BudgetPolicy.ProportionalServes | model/llm/context_budget.go:175-213 | budget at least 16 per slot left is an invariant, so every message that says something before any image is chosen and still does so |
| BudgetPolicy.PriorityMeans | model/llm/context_budget.go:215-227 | in terms of the message: required if and only if it is the last one, a system message or of priority 120 and above; protected if and only if it is the last one or of priority 130 and above; an optional one ranks by its priority, as history without one |
| BudgetPolicy.RequiredCounts | model/llm/context_budget.go:110-133 | the sums that choose between the three ways of selecting, as sums over the messages |
| BudgetPolicy.ProtectedAreUntouched | model/llm/context_budget.go:110-227 | if the last message and those of priority 130 and above fit beside 16 tokens for every other system message or message of priority 120 and above, the former are output unchanged, whatever the latter hold |
| BudgetPolicy.NoStarvation | model/llm/context_budget.go:110-227 | if the budget pays for the last message and those of priority 130 and above plus 16 tokens for every other system message or message of priority 120 and above, or for 16 tokens for each of all these, and each of those it pays 16 tokens for says something before any image or is plain, none of them that says something before any image falls silent |
| BudgetEdges.InstructionCanBeSilenced | model/llm/context_budget.go:175-213 | three messages whose first system instruction overruns its share, so that the second, which says something, is dropped |
| BudgetPolicy.FillBeforeIsAhead | model/llm/context_budget.go:53-91 | when the fill reaches a message it has chosen exactly the finally chosen messages that outrank it |
| BudgetPolicy.GreedyDecides | model/llm/context_budget.go:69-91 | the greedy equation, over the fields of the messages: one that is neither last nor a system message nor of priority 120 is whole, trimmed (rank 60 and above) or dropped according to what is left by the required messages and those that outrank it, by rank and then by position |
| BudgetPolicy.DroppedDoNotFit | model/llm/context_budget.go:69-91 | a message that need not be kept and that the selection drops would not have fitted beside what it kept |
| BudgetPolicy.MissingDoNotFit | model/llm/context_budget.go:45-105 | a message that need not be kept and is missing from the output would not have fitted into what the output leaves of the budget |
| BudgetPolicy.FitKeepsOrder | model/llm/context_budget.go:98-104 | the output is the image of a strictly increasing choice of positions that keeps role and priority and misses no chosen position |
| BudgetPolicy.WindowIsRespected | model/llm/context_budget.go:25-43 | the window is exceeded by one overrun at most, and not at all by overruns up to the safety reserve; for plain messages the request fits if and only if the output reserve does, and the safety reserve is kept if and only if there is room beyond it (or exactly it and nothing is sent, which a speaking last message rules out) |
| BudgetPolicy.FittingRequestStays | model/llm/context_budget.go:25-43 | a request that fits the window beside both reserves is sent as it is, and so is any request without a window |
| Masking.IndexFinds | model/qqbot/llm_qq_privacy.go:303-327 | the search finds the first occurrence, or there is none |
| Masking.ReplaceNumericIdentifier | model/qqbot/llm_qq_privacy.go:303-327 | the loop over the remainder computes Mask |
| Masking.MaskAt | model/qqbot/llm_qq_privacy.go:310-325 | one turn of the loop: copy up to the first occurrence, replace it unless a digit stands beside it, and forget what stood before |
| Masking.MaskSplits | model/qqbot/llm_qq_privacy.go:303-327 | where two texts do not meet digit to digit, masking works on each alone |
| QQPrivacy.AliasShape | model/qqbot/llm_qq_privacy.go:186-187 | in an alias the letter q stands in the first two places only |
| QQPrivacy.AliasTellsRole | model/qqbot/llm_qq_privacy.go:186-187 | two aliases are equal if and only if their roles and tags are |
| QQPrivacy.AliasesArePrefixFree | model/qqbot/llm_qq_privacy.go:186-187 | no alias is a proper prefix of another |
| QQPrivacy.AliasesDoNotOverlap | model/qqbot/llm_qq_privacy.go:186-187 | an alias can start inside another only as that alias itself |
| QQPrivacy.RegisterKeepsInverse | model/qqbot/llm_qq_privacy.go:175-191 | registering keeps the two maps inverse if and only if nothing was added or the alias was free |
| QQPrivacy.RegisterGrows | model/qqbot/llm_qq_privacy.go:175-191 | a number keeps the alias it once got |
| PrivacyRoundTrip.MaskLifts | model/qqbot/llm_qq_privacy.go:303-327 | masking one more number, if it leaves the aliases written so far as they are, hides occurrences of it and changes nothing else |
| PrivacyRoundTrip.MaskPassesAlias | model/qqbot/llm_qq_privacy.go:303-327 | masking that leaves an alias as it is alone does so inside a text, unless a digit follows it |
| PrivacyRoundTrip.MaskAllLifts | model/qqbot/llm_qq_privacy.go:246-262 | masking all registered numbers in turn hides a part of them and changes nothing else |
| PrivacyRoundTrip.UnmaskShows | model/qqbot/llm_qq_privacy.go:286-301 | replacing one alias shows its number everywhere and changes nothing else |
| PrivacyRoundTrip.RoundTrip | model/qqbot/llm_qq_privacy.go:246-301 | if masking a later number leaves every earlier alias as it is, restoring a protected text without aliases gives it back, in whatever order they are looked for, also when more numbers were registered in between |
| PrivacyRoundTrip.UsableIsSettled | model/qqbot/llm_qq_privacy.go:246-262 | which is so when no alias contains a registered number |
| PrivacyOrder.OneUndone | model/qqbot/llm_qq_privacy.go:298-327 | one replacement is undone in every text without the alias |
| PrivacyOrder.MaskKeepsFree | model/qqbot/llm_qq_privacy.go:303-327 | masking one number brings no other alias about |
| PrivacyOrder.ReverseRoundTrip | model/qqbot/llm_qq_privacy.go:246-301 | undone from the last replacement to the first, protecting is undone in every text without aliases, whatever numbers the aliases hold |
| PrivacyOrder.AliasIsLeft | model/qqbot/llm_qq_privacy.go:246-301 | if masking the second number changes the first one's alias and that alias is looked for first, restoring gives the alias in place of the number |
| PrivacyOrder.TwoNumbersIff | model/qqbot/llm_qq_privacy.go:246-301 | for two numbers, looked for in the order in which they were masked, every text without aliases comes back if and only if masking the second leaves the first one's alias as it is |
| PrivacyRestore.ReplacingExposesNothing | model/qqbot/llm_qq_privacy.go:286-301 | writing a number for one alias never makes an alias stand alone that did not before, and leaves none of its own |
| PrivacyRestore.RestoredShowsNoAlias | model/qqbot/llm_qq_privacy.go:286-301 | whatever text is restored, no registered alias is left in it but with a digit right behind |
| PrivacyRestore.RoundTripIff | model/qqbot/llm_qq_privacy.go:246-301 | unless every alias in the text has a digit right behind it: the round trip gives the text back if and only if the text holds no registered alias |
| PrivacyRestore.HeldIsExposed | model/qqbot/llm_qq_privacy.go:246-301 | which covers every text in which no alias is followed by a digit |
| PrivacyRestore.OrderMatters | model/qqbot/llm_qq_privacy.go:290-299 | for an alias that ends in digits with the rest of a registered number behind it, the two orders of equally long aliases restore the text and something else |
| PrivacyRestore.OrderMattersForOneText | model/qqbot/llm_qq_privacy.go:290-299 | two aliases and a text of that kind |
| PrivacyLeaks.MaskAllOfNumber | model/qqbot/llm_qq_privacy.go:246-262 | a registered number alone becomes its alias, whatever else is registered |
| PrivacyLeaks.IsolatedNumberIsMasked | model/qqbot/llm_qq_privacy.go:246-262 | completeness: every maximal run of digits that is a registered number becomes its alias, and both sides are protected as if alone |
| PrivacyLeaks.RegisteredNumberIsMasked | model/qqbot/llm_qq_privacy.go:246-262 | completeness for a registry: every registered number between non-digits becomes its alias |
| PrivacyLeaks.RunLeaksIffDirty | model/qqbot/llm_qq_privacy.go:303-327 | a run of digits still shows a registered number after masking if and only if it contains one without being one |
| PrivacyLeaks.LeaksIffDirty | model/qqbot/llm_qq_privacy.go:246-262 | the same for every text and its runs of digits, one after the other |
| PrivacyLeaks.ShowsNumberIff | model/qqbot/llm_qq_privacy.go:246-262 | a protected text still shows a registered number if and only if some maximal run of digits of the original is not registered but holds a registered number |
| PrivacyLeaks.DoubledNumberLeaks | model/qqbot/llm_qq_privacy.go:303-327 | a number written twice in a row keeps its first copy |
| PrivacyLeaks.AliasInTextIsResolved | model/qqbot/llm_qq_privacy.go:286-301 | an alias that the text already held comes back as the number |
| PrivacyLeaks.NumberInAliasIsMaskedAgain | model/qqbot/llm_qq_privacy.go:246-262 | an alias that contains a registered number is masked a second time |
| PrivacyScope.SortedPairs | model/qqbot/llm_qq_privacy.go:252-257 | all entries of a map, each once, the longest key first |
| PrivacyScope.MaskEach | model/qqbot/llm_qq_privacy.go:258-262 | the loop over the pairs computes MaskAll |
| PrivacyScope.QQPrivacyScope.constructor | model/qqbot/llm_qq_privacy.go:45-57 | a new scope has two empty maps |
| PrivacyScope.QQPrivacyScope.RegisterID | model/qqbot/llm_qq_privacy.go:175-191 | updates both maps as Register says and returns the registered alias, or the trimmed text if it is no QQ number |
| PrivacyScope.QQPrivacyScope.DiscoverStructuredIDs | model/qqbot/llm_qq_privacy.go:264-284 | afterwards the scope knows just what it knew before, by the same aliases, and every discovered QQ number, a new one by an alias with the role of its first discovery |
| PrivacyScope.QQPrivacyScope.RegisteredIsLearned | model/qqbot/llm_qq_privacy.go:264-284 | the same of the specification: nothing forgotten, everything found is there, nothing else is |
| PrivacyScope.RoleNamesItself | model/qqbot/llm_qq_privacy.go:193-206 | a role is read from its own name in any case and with spaces around it |
| PrivacyScope.RoleInCapitals | model/qqbot/llm_qq_privacy.go:193-206 | also in capitals |
| PrivacyScope.SpellingsOfRoles | model/qqbot/llm_qq_privacy.go:193-206 | the other spellings, and that every further word means a user |
| PrivacyScope.IsLikelyQQIdentifier | model/qqbot/llm_qq_privacy.go:208-218 | the loop accepts exactly 5 to 14 digits without a leading zero |
| PrivacyScope.QQPrivacyScope.ProtectText | model/qqbot/llm_qq_privacy.go:246-262 | learns the discoveries of a text that is not blank, and masks with all entries, longest number first: if no alias holds a registered number, every number known by then, also one just discovered, that stands between non-digits comes out as its alias |
| PrivacyScope.NumbersAreHidden | model/qqbot/llm_qq_privacy.go:246-262 | with all entries of a registry, longest first, every registered number between non-digits comes out as its alias and both sides as if alone |
| PrivacyScope.QQPrivacyScope.RestoreText | model/qqbot/llm_qq_privacy.go:286-301 | replaces all registered aliases, longest first, and changes no map |
| AdminAuthentication.Unexpired | webui/admin_auth.go:1029-1040 | the loop keeps exactly the sessions that have not expired |
| AdminAuthentication.AdminAuth.constructor | webui/admin_sessions.go:47-90 | a restart loads the credential and the unexpired sessions of the files |
| AdminAuthentication.AdminAuth.PersistSessions | webui/admin_auth.go:986-988 | writes the session file whole or not at all |
| AdminAuthentication.AdminAuth.PersistCredential | webui/admin_auth.go:990-997 | writes the credential file whole or not at all |
| AdminAuthentication.AdminAuth.NewAccessToken | webui/admin_auth.go:784-802 | a fresh token id; expiry after the lifetime but not after the session |
| AdminAuthentication.AdminAuth.StartBrowserSession | webui/admin_auth.go:736-782 | memory, files and result are those of Login, with the new session taken back when the write fails |
| AdminAuthentication.AdminAuth.RotateSessionTokens | webui/admin_auth.go:891-909 | both tokens of the session are new, its end and account stay |
| AdminAuthentication.AdminAuth.RefreshBrowserSession | webui/admin_auth.go:856-889 | memory, files and result are those of Refresh |
| AdminAuthentication.AdminAuth.AuthenticateAccessToken | webui/admin_auth.go:824-854 | memory, files and result are those of Authenticate |
| AdminAuthentication.AdminAuth.LogoutSession | webui/admin_auth.go:414-437 | memory, files and result are those of Logout |
| AdminAuthentication.AdminAuth.RevokeSession | webui/admin_auth.go:463-490 | memory, files and result are those of Revoke |
| AdminAuthentication.AdminAuth.RevokeOtherSessions | webui/admin_auth.go:492-513 | memory, files and result are those of RevokeOthers |
| AdminAuthentication.AdminAuth.SetupAccount | webui/admin_auth.go:377-391 | memory, files and result are those of Setup |
| AdminAuthentication.AdminAuth.MoveToNewAccount | webui/admin_auth.go:583-612 | in memory: new account, only the current session left and rotated; undone when rotation fails |
| AdminAuthentication.AdminAuth.ChangeCredentials | webui/admin_auth.go:562-631 | memory, files and result are those of UpdateCredentials, including both rollbacks |
| AdminTheorems.FreshStartIsConsistent | webui/admin_auth.go:118-166 | a first start satisfies the invariant |
| AdminTheorems.StepConsistent | webui/admin_auth.go:562-909 | every operation, with any failing write, any crash in a change and any restart keeps the invariant of memory and files |
| AdminTheorems.RunConsistent | webui/admin_auth.go:562-909 | so does every run |
| AdminTheorems.StepDescends | webui/admin_auth.go:562-909 | every session after a step carries on one before it, with the same end and the same or entirely new tokens, or is new |
| AdminTheorems.ExchangeKills | webui/admin_auth.go:856-909 | an exchanged refresh token is nowhere any more, nor is the access token it replaced, and the new one is accepted |
| AdminTheorems.RefreshOnce | webui/admin_auth.go:856-909 | over any run with failures and restarts, a refresh token exchanged once is refused ever after |
| AdminTheorems.ReplacedAccessIsRefused | webui/admin_auth.go:824-909 | the access token that a refresh replaced is refused ever after |
| AdminTheorems.ExpiryNeverMoves | webui/admin_auth.go:736-909 | no run moves the end of a session |
| AdminTheorems.AccessNeverOutlivesSession | webui/admin_auth.go:784-802 | a granted access token ends with its lifetime and with its session at the latest |
| AdminTheorems.GrantedAccessIsLetIn | webui/admin_auth.go:784-837 | an access token granted by a login, a refresh or a change is let in at a later moment if and only if its whole second is before that of the end of its lifetime or of its session, whichever comes first |
| AdminTheorems.GrantSays | webui/admin_auth.go:784-802 | it names the account, the session and that session's current token, and says since when |
| AdminTheorems.LoginDecides | webui/admin_auth.go:736-782 | a login succeeds if and only if its tokens can be drawn and stored; its session is new and ends exactly one session lifetime from now |
| AdminTheorems.FailedChangeIsHarmless | webui/admin_auth.go:562-631 | a credential change that reports an error leaves memory and credential file as they were, and a restart accepts no refresh token that was not accepted before |
| AdminTheorems.CrashedChangeIsHarmless | webui/admin_auth.go:612-631 | a stop between the two writes leaves the old credential in force and accepts no refresh token a restart would not have accepted |
| AdminTheorems.SuccessfulChange | webui/admin_auth.go:562-631 | after a successful change only the refresh token handed to the current session is accepted; every earlier one is dead |
| AdminTheorems.RestartAfterChange | webui/admin_sessions.go:47-90 | the same after a restart |
| AdminTheorems.ChangeEndsOldTokens | webui/admin_auth.go:562-631 | no refresh token from before a successful change is exchanged in any later run |
| AdminTheorems.FailedChangeGrantsNoAccess | webui/admin_auth.go:562-631 | nor does a restart after a failed change let in an access token that was not let in before |
| AdminTheorems.CrashedChangeGrantsNoAccess | webui/admin_auth.go:612-631 | nor does a stop between the two writes |
| AdminTheorems.ChangeReplacesAccess | webui/admin_auth.go:824-837 | after a successful change, restarted or not, only the access token handed to the current session is let in; every earlier one is dead |
| AdminTheorems.ChangeEndsOldAccess | webui/admin_auth.go:824-837 | no access token from before a successful change is let in in any later run |
| AdminTheorems.ChangeDecides | webui/admin_auth.go:562-631 | a change of credentials takes place if and only if the password is right and every draw and write succeeds; it sets what was asked for under a new account, keeps only the current session with its end, and a failed one leaves one of two session files |
| AdminTheorems.SetupDecides | webui/admin_auth.go:377-391 | a setup is refused if and only if there is an account; it succeeds if and only if it is stored, and then sets the account and nothing else |
| AdminTheorems.SetupOnce | webui/admin_auth.go:377-391 | over any run, no setup succeeds once there is an account |
| AdminTheorems.EndedStaysEnded | webui/admin_auth.go:414-513 | a logout or revocation that reports success ends the session for good, also a repeated logout of a session that only the file still had |
| AdminTheorems.EndingDecides | webui/admin_auth.go:414-513 | when each way of ending sessions succeeds, fails or is refused; a failed revocation changes nothing |
| AdminTheorems.FailedLogoutComesBack | webui/admin_auth.go:414-437 | after a logout whose write failed, a restart brings the session back if and only if the file has it unexpired |
| AdminTheorems.RefreshDecides | webui/admin_auth.go:856-889 | a refresh token is refused unless its session is there, not over, of the account in force and holds it; it is exchanged if and only if it is not refused and the new tokens can be drawn and stored; the session then holds the new token, has been seen now and is otherwise as before; a failed exchange spends nothing |
| AdminTheorems.AuthenticateDecides | webui/admin_auth.go:824-854 | an access token is let in if and only if it is in its time, names the account in force, and is the current one of its session, which is not over; whether or not the visit could be stored, and no token is spent |
| AdminTheorems.VisitIsNoted | webui/admin_auth.go:841-849 | a visit is noted if and only if the last one is five minutes ago and it can be stored |
| AdminTheorems.OthersAreLeftAlone | webui/admin_auth.go:414-909 | signing in, refreshing, visiting and signing out leave the tokens of every other unexpired session alone |
| AdminTheorems.GrantSurvivesRestart | webui/admin_sessions.go:47-90 | with both files kept, granted tokens are accepted after a restart exactly when they would be without one |
| AdminTheorems.GrantIsAccepted | webui/admin_auth.go:736-889 | a granted token is accepted until its session ends, unless the account was replaced during the login |
| OutboundGate.InForce | model/qqbot/group_send_guard.go:102-121 | the policy in force is valid: what is positive stays, what is not gets its default (a minute, a quarter of an hour, and half an hour twice), and the maximum is raised to the initial delay |
| OutboundGate.OutboundBackoffDelay | model/qqbot/group_send_guard.go:283-307 | the doubling loop with its cut computes the initial delay times a power of two, cut and jittered |
| OutboundGate.DelayBounds | model/qqbot/group_send_guard.go:283-307 | every delay lies between the initial and the maximum delay |
| OutboundGate.DelayDoubles | model/qqbot/group_send_guard.go:283-299 | without jitter the delay starts at the initial one and doubles up to the maximum |
| OutboundGate.JitterAdds | model/qqbot/group_send_guard.go:299-307 | jitter adds up to a fifth, by thousandths, within the maximum |
| OutboundGate.TurnProgress | model/qqbot/group_send_guard.go:184-251 | a turn that does not end the invocation has made a call, backs off by at least one initial delay, and brings the invocation closer to its end |
| OutboundDelivery.GroupOutboundDelivery.Reset | model/qqbot/group_send_guard.go:261-267 | the gate is as new |
| OutboundDelivery.GroupOutboundDelivery.EnterDropCooldown | model/qqbot/group_send_guard.go:321-323 | no next attempt, and closed for the cooldown |
| OutboundDelivery.GroupOutboundDelivery.WaitForTurn | model/qqbot/group_send_guard.go:184-216 | everything before the call, as Approach says |
| OutboundDelivery.GroupOutboundDelivery.SettleCall | model/qqbot/group_send_guard.go:218-250 | everything after the call, as Settle says |
| OutboundDelivery.GroupOutboundDelivery.ExecuteOutboundCall | model/qqbot/group_send_guard.go:179-251 | the loop computes Invoke, terminates, and keeps the gate in one of its three states |
| OutboundDelivery.InvokeIsSafe | model/qqbot/group_send_guard.go:179-251 | failures are zero exactly when no first failure is set, next attempt and cooldown never both are, no call starts before the pending attempt or in the cooldown, and the calls are spaced |
| OutboundDelivery.ResultTellsGate | model/qqbot/group_send_guard.go:184-250 | delivered means open, dropped means closed for some time, failed once means backing off |
| OutboundOutcome.HinderedRound | model/qqbot/group_send_guard.go:184-217 | a round makes no call exactly under its causes in the environment, ends the invocation as cancelled or dropped, each under its own, and counts no failure |
| OutboundOutcome.CallingRound | model/qqbot/group_send_guard.go:218-250 | a round with a call: delivered with an open gate if and only if the call was answered well; group unavailable, with the count left alone, if and only if the answer says so; any other answer is one more failure whose error is kept, and is a drop, the end or a retry |
| OutboundOutcome.InvocationMeans | model/qqbot/group_send_guard.go:164-251 | over the whole script: each call starts, and is followed by another, exactly when it should; the result is the one that the last answer or the hindrance after it calls for; the gate is left with the failures, the first of them and the error that the answers add up to |
| OutboundOutcome.DropCools | model/qqbot/group_send_guard.go:184-250 | a drop closes the gate for one cooldown from then on, unless it was a cooldown that refused the invocation |
| OutboundDelivery.CallsAreBounded | model/qqbot/group_send_guard.go:179-251 | at most one call more than initial delays fit into the failure window, rounded up; one call when an alternative exists |
| OutboundDelivery.InvokeKeepsClosed | model/qqbot/group_send_guard.go:184-207 | an invocation during a cooldown calls nothing before its end |
| OutboundDelivery.CooldownHolds | model/qqbot/group_send_guard.go:184-207 | nor does any run of invocations whose policies do not shorten the cooldown |
| OutboundDelivery.InvocationKeepsCooldown | model/qqbot/group_send_guard.go:184-207 | one invocation leaves the gate closed for the rest of a cooldown, whatever happens, if and only if its own cooldown would last as long |
| OutboundDelivery.CancellationRestartsCooldown | model/qqbot/group_send_guard.go:185-194 | a cancelled context found in a cooldown starts it anew with the caller's policy |
| OutboundDelivery.ShortCooldownCutsIn | model/qqbot/group_send_guard.go:184-207 | the failing run: a cancelled use with a shorter cooldown, then a call before the first cooldown is over |
| OutboundDelivery.CooldownHoldsIff | model/qqbot/group_send_guard.go:184-207 | a cooldown holds in every run of uses if and only if no policy in use would cool down for less than what is left of it |
| GroupBlocking.OnlyLaterEventsUnblock | model/qqbot/group_send_guard.go:497-571 | in every state a run reaches, a block is never overwritten and removed only by the second step of a strictly later event of that run |
| GroupBlocking.StepsDecide | model/qqbot/group_send_guard.go:472-562 | a mark sets a block exactly where there is none; a check refuses exactly the blocked groups; an event is ignored exactly if its group is blocked and it is not later than the block |
| GroupBlocking.LaterEventUnblocks | model/qqbot/group_send_guard.go:546-571 | an event later than the block, followed by its own second step, removes the block and is accepted, whatever happens in between but a new block |
| GroupBlocking.BlockHolds | model/qqbot/group_send_guard.go:164-251 | however the steps interleave, until such an event arrives the block stays, and a goroutine may call the group if and only if it passed the check before and has begun nothing since; the others make no call to it |
| GroupBlocking.RefusedCallsNoMore | model/qqbot/group_send_guard.go:170-172 | a goroutine that begins another invocation for a blocked group is refused and calls it no more |
| GroupBlocking.PassedCheckStillCalls | model/qqbot/group_send_guard.go:170-218 | a run of check, block and call, in which the blocked group is called |
| GroupBlocking.BlockHoldsInEveryRun | model/qqbot/group_send_guard.go:497-571 | over a whole history without an event later than the block, it stays once set, and only goroutines past the check by then call the group |
| GroupBlocking.ReblockedGroupSurvives | model/qqbot/group_send_guard.go:564-570 | a block set anew between the two steps survives if and only if its time differs |
| GroupBlocking.UnavailableGroups.MarkGroupSendUnavailable | model/qqbot/group_send_guard.go:497-515 | sets the block only if there is none |
| GroupBlocking.UnavailableGroups.BlockedGroupSendError | model/qqbot/group_send_guard.go:472-495 | refuses exactly the blocked groups |
| GroupBlocking.UnavailableGroups.BeginOutboundCall | model/qqbot/group_send_guard.go:164-172 | the check at the start of an invocation, once for all its calls |
| GroupBlocking.UnavailableGroups.ReadBlockedAt | model/qqbot/group_send_guard.go:546-562 | the step under the read lock |
| GroupBlocking.UnavailableGroups.ClearIfUnchanged | model/qqbot/group_send_guard.go:564-570 | the step under the write lock |
| AgentRunner.WithDefaults | model/agent/types.go:117-198 | limits within their range stay; the steps are eight otherwise, the repairs three for none and six for too many |
| AgentRunner.Run | model/agent/runner.go:122-341 | the loop and the closing turn compute AgentRun, and terminate for every model and tool |
| AgentRunner.RunTurn | model/agent/runner.go:122-299 | the body of the loop computes PlanTurn |
| AgentOutcome.ReplyMeans | model/agent/runner.go:122-299 | one reply that is asked for: it ends the planning as it should or counts, is recorded and lets it go on |
| AgentOutcome.PlanMeans | model/agent/runner.go:122-299 | the planning reads replies exactly as long as no one ends it and both budgets last; tools executed, repairs, steps, turns and events are what the replies add up to, a repair for each of the five faults and for nothing else; it ends as the last reply says: final answer, plain text, terminal tool, error, time or repairs used up |
| AgentOutcome.ClosingMeans | model/agent/runner.go:298-341 | what the closing turn makes of each answer |
| AgentOutcome.RunMeans | model/agent/runner.go:83-341 | both together, for every run |
| AgentOutcome.FinalAnswerEnds | model/agent/runner.go:159-178 | a final answer or plain text that is asked for ends the run in its own turn, with the tools and repairs so far |
| AgentOutcome.GoodCallIsExecuted | model/agent/runner.go:193-258 | a call that is asked for, of a known tool, neither the last one again nor a search too many, is executed in its turn |
| AgentTheorems.PlanTurnOk | model/agent/runner.go:122-299 | one turn keeps the budgets, the counters and the record of steps |
| AgentTheorems.RunIsBounded | model/agent/runner.go:122-341 | at most MaxSteps tools, three web searches and MaxSteps plus ProtocolRepairLimit model turns; no call with the same written signature twice in a row; steps numbered from one, the unskipped ones being the executed tools |
| AgentTheorems.ReasonIsTrue | model/agent/runner.go:302-341 | the reported finish reason agrees with the tools executed and the repairs made, only a closing turn refuses a tool, and it runs none |
| AgentTheorems.EventsAreCounted | model/agent/runner.go:83-341 | every event carries the number of tools started so far, and its model turn never goes back |
| AgentTheorems.PlanTurnTrace | model/agent/runner.go:122-299 | one turn extends a grammatical trace |
| AgentTheorems.TraceIsGrammatical | model/agent/runner.go:83-341 | every trace is a start, then rounds of a model turn with a repair or a tool, then one ending |
| AgentTime.PlanningLeavesReserve | model/agent/runner.go:371-388 | a planning turn begins if its two looks at the clock are less than two thirds of the time apart, before the deadline at all if they are not apart; it then stops with just the reserve left, which is at most a third; without a deadline or reserve there is no limit but the deadline |
| AgentTime.ToolLeavesReserve | model/agent/runner.go:390-403 | a tool stops within its timeout, with the reserve left if and only if it began before the deadline, and with no more than that left unless its timeout ends it |
| AgentTime.PhasesLeaveWorst | model/agent/runner.go:371-414 | phases that keep to their limits leave at least what phases using all their time leave |
| AgentTime.WorstIsThirds | model/agent/runner.go:405-414 | which is the first reserve divided by three for every further phase |
| AgentTime.WorstIsReached | model/agent/runner.go:371-414 | phases that use all their time keep to their limits and leave just that |
| AgentTime.ReserveIsKeptIff | model/agent/runner.go:371-414 | the configured reserve is sure to be left after a number of phases if and only if there is just one and three times the reserve to begin with |
| LLMRetry.AttemptsFit | model/qqbot/llm_retry.go:112-147 | all attempts and delays fit before the deadline if and only if there is room for the delays and one nanosecond per attempt |
| LLMRetry.AttemptIsLongest | model/qqbot/llm_retry.go:112-139 | the attempt timeout is the configured one if all attempts fit with it; else one nanosecond more per attempt would not fit, as long as anything does |
| LLMRetry.TimeoutExceedsConfigured | model/qqbot/llm_retry.go:127-130 | the attempt timeout exceeds the configured one if and only if the delays outlast the deadline and more than the configured is left |
| LLMRetry.GenerateWithRetry | model/qqbot/llm_retry.go:43-93 | the loop computes Retry |
| LLMRetry.RetryMeaning | model/qqbot/llm_retry.go:43-93 | every attempt but the last failed with a retryable error, the result is the last attempt's, and it gave up early only on an error that is not retryable |
| LLMRetry.AllAttemptsAreMade | model/qqbot/llm_retry.go:43-93 | against errors that are always retryable, just the first attempt and the configured retries are made, or the first alone if retries are off |
| Failover.ProfileFailoverProvider.ClientAt | model/qqbot/llm_retry.go:232-239 | builds the client of a profile the first time only, and keeps what was built, error or client |
| Failover.ProfileFailoverProvider.GenerateAny | model/qqbot/llm_retry.go:193-230 | the loop computes Generate |
| Failover.CallFollowsRotation | model/qqbot/llm_retry.go:193-230 | profiles are tried in rotation from the current one, each only after the one before failed over, and the answering one becomes current |
| Failover.CallEnds | model/qqbot/llm_retry.go:193-230 | a call ends with the answer of the last profile tried; without one only when all profiles failed over, the last error does not fail over, or the context is over, and its outcome says which |
| Failover.FailingTurn | model/qqbot/llm_retry.go:193-230 | a turn that fails over changes just its client and its error, and the call goes on as the rest does |
| Failover.LastTurn | model/qqbot/llm_retry.go:193-230 | a turn that ends the call does so with an answer, an error or the end of the context, each under its cause |
| Failover.TriedAreBuilt | model/qqbot/llm_retry.go:232-239 | a call builds a client for just those profiles that it tries and that have none, and leaves the others alone |
| Failover.FactoryIsKept | model/qqbot/llm_retry.go:232-239 | and keeps what the factory gave |
| Failover.TriesAreDistinct | model/qqbot/llm_retry.go:193-230 | no profile is tried twice in one call |
| Failover.ClientsAreBuiltOnce | model/qqbot/llm_retry.go:193-239 | over any number of calls each client is built at most once |
| StreamText.ReconcileAdopts | model/llm/openai_compatible.go:956-969 | the snapshot, or the text so far, is the result if and only if it continues the other |
| StreamText.StreamTextAccumulator.PartIndex | model/llm/openai_compatible.go:826-837 | finds or adds the part, so that writing it is the update of that key |
| StreamText.StreamTextAccumulator.AppendText | model/llm/openai_compatible.go:802-808 | extends one part |
| StreamText.StreamTextAccumulator.ApplySnapshot | model/llm/openai_compatible.go:810-816 | reconciles one part |
| StreamText.StreamTextAccumulator.ApplyGlobalSnapshot | model/llm/openai_compatible.go:818-824 | reconciles the whole text into one part |
| StreamText.StreamTextAccumulator.WholeText | model/llm/openai_compatible.go:839-845 | the parts in order of first appearance |
| StreamText.StreamTextAccumulator.HandleEvent | model/llm/openai_compatible.go:897-907 | the dispatch of a decoded event |
| StreamText.TextsOnlyGrow | model/llm/openai_compatible.go:897-907 | over any interleaving of keyed events each part's text is only ever extended |
| StreamText.RedundantSnapshot | model/llm/openai_compatible.go:810-816 | a part's snapshot changes nothing if and only if it is blank or the part begins with it |
| StreamText.CompletedTextWins | model/llm/openai_compatible.go:818-824 | after any events and redundant snapshots, the answer is the completed text if and only if that continues what was gathered, and dropping the snapshots changes nothing |
| StreamText.PartsFollowFullText | model/llm/openai_compatible.go:897-907 | however deltas and snapshots of the full texts interleave, no part leaves its full text, and an announced one is reached and stays |
| StreamText.UnkeyedTextContinues | model/llm/openai_compatible.go:818-824 | after a completed text there is one part, and text without a key goes on there |
| StreamOrder.AddedTextIsAssembled | model/llm/openai_compatible.go:802-845 | after any events that only add text, the parts are the keys by first appearance, each with its additions one after the other |
| StreamOrder.PartIsItsAdditions | model/llm/openai_compatible.go:802-808 | so each part is the concatenation of what was added to it |
| StreamOrder.WholeIsByAppearance | model/llm/openai_compatible.go:839-845 | the whole text is the concatenation of the parts by first appearance |
| StreamOrder.OnePartIsTheStream | model/llm/openai_compatible.go:802-845 | and with a single key, the stream in its order |
| RenderStability.BrowserActivityTracker.ObserveEvent | model/agent/headless_browser_cdp.go:78-126 | each browser event updates the tracker as Track says |
| RenderStability.BrowserActivityTracker.AppendNavigation | model/agent/headless_browser_cdp.go:128-136 | the chain gets a new address unless it is blank or the last one |
| RenderStability.RenderReadiness.Record | model/agent/headless_browser_cdp.go:198-216 | a probe updates the streak and the counts |
| RenderStability.RenderReadiness.Observe | model/agent/headless_browser_cdp.go:197-249 | the decision and its reason |
| RenderStability.StreakHolds | model/agent/headless_browser_cdp.go:198-216 | every probe since the remembered moment showed the same content |
| RenderStability.StreakStarts | model/agent/headless_browser_cdp.go:198-216 | the remembered moment is that of a probe that showed the remembered content, as every later one did |
| RenderStability.NavigationIsRemembered | model/agent/headless_browser_cdp.go:78-126 | no main frame navigation is later than the remembered one |
| RenderStability.CompleteMeansStable | model/agent/headless_browser_cdp.go:197-249 | complete means: time budget spent; an earlier probe at least a stability window ago and every one since showed the same address, signature and ready state; no navigation in that window; and idle with a quiet network or the same over three windows |
| RenderTracker.FrameIsKnown | model/agent/headless_browser_cdp.go:90-92 | the main frame is that of the last navigation of a frame without a parent |
| RenderTracker.PendingIsOutstanding | model/agent/headless_browser_cdp.go:78-126 | a request is pending if and only if it is an important one, not known to be of another frame, was sent since the last main frame navigation and has not ended since |
| RenderTracker.NavigationIsLast | model/agent/headless_browser_cdp.go:78-97 | the remembered navigation is the last one of the main frame |
| RenderTracker.LoadingIsLast | model/agent/headless_browser_cdp.go:82-105 | the page loads if and only if nothing has ended its loading since the last beginning of it |
| RenderTracker.NetworkIsLast | model/agent/headless_browser_cdp.go:106-124 | the remembered traffic is the last beginning of an important request or end of a pending one |
| RenderTracker.ActivityStep | model/agent/headless_browser_cdp.go:78-136 | what each event changes, and the address it adds to the chain |
| RenderTracker.ChainMeans | model/agent/headless_browser_cdp.go:128-136 | the chain gets the trimmed address unless it is blank, about:blank or the last one |
| RenderTracker.WhatCounts | model/agent/headless_browser_cdp.go:162-170 | media, sockets, event sources, pings and images do not count |
| RenderTracker.CompleteIff | model/agent/headless_browser_cdp.go:197-249 | over every history of events and probes: an observation is complete if and only if the time is spent, the page has an address and content, every probe of a stability window showed the same and no navigation came in it, longer the less ready the document, and the network is quiet or nothing changed for three windows |
| RenderTracker.ReasonMeans | model/agent/headless_browser_cdp.go:218-249 | the reason given is the one that holds |
| RenderTracker.ContentChangesAreCounted | model/agent/headless_browser_cdp.go:198-216 | a new detector counts exactly the changes of content |
| RenderTracker.ReportsOfOnePage | model/agent/headless_browser_cdp.go:198-205 | as long as the probes are of one page, the changes add up to the largest report, on top of those of earlier pages |
| OCRChunks.Flush | model/qqbot/document_ocr.go:474-479 | the gathered text becomes a chunk unless it is blank |
| OCRChunks.CutLong | model/qqbot/document_ocr.go:488-495 | a paragraph over the limit is cut without losing a visible character |
| OCRChunks.AddParagraph | model/qqbot/document_ocr.go:480-502 | a paragraph is gathered if it fits, and no visible character is lost or moved |
| OCRChunks.ParagraphsKeepVisible | model/qqbot/document_ocr.go:471-471 | splitting at blank lines loses no visible character |
| OCRChunks.PackingUndoesSplitting | model/qqbot/document_ocr.go:471-502 | splitting at blank lines and packing again gives a text of clean paragraphs back |
| OCRChunks.SplitOCRContext | model/qqbot/document_ocr.go:467-505 | every chunk is non-empty and within the limit, the visible characters of the chunks in order are those of the text, and paragraphs that fit together make one chunk |

## Left out

- BudgetPolicy.NoStarvation: leaves out requests with a system instruction that has both parts and content and no visible text part before its first image, because such a message can take more than its share and silence another instruction (BudgetEdges.InstructionCanBeSilenced); ProtectedAreUntouched holds for all requests.
- BudgetTheorems.FitIsIdempotent: for messages that are not plain it asks that the result fit; RefitCanChange shows why.
- Allocation: the product of budget and cost is an unbounded integer here; the code multiplies 64-bit integers.
- OutboundGate.OutboundBackoffDelay: the product of delay and jitter is unbounded, and the FNV hash behind the jitter is a parameter from 0 to 200.
- LLMRetry.AttemptsFit: durations are unbounded integers, so 64-bit overflow of the retry budget is not modelled.
- TokenCost.EstimateTextTokens: invalid UTF-8, which the code decodes as replacement characters, is not modelled; the same holds for all texts.
- PrivacyRestore.RoundTripIff: a text whose every alias has a digit right behind it is outside it, because there the result can depend on the order of equally long aliases, which is that of a map and not determined (OrderMatters).
- PrivacyRoundTrip.RoundTrip: asks that masking a later number leave every earlier alias as it is, and that the registry maps be inverse; the code checks neither, since aliases are digests. TwoNumbersIff and RegisterKeepsInverse show what each is needed for; for more than two numbers the first condition is only shown to suffice.
- PrivacyRestore.RestoredShowsNoAlias: asks that no alias contain a registered number, as do the lemmas on which texts leak.
- Messages.TrimMessageFits: a content that is clipped to the leftover is decided by TrimMessageCost, from the cost of the clip.
- PrivacyScope.QQPrivacyScope.DiscoverStructuredIDs: the regular expressions that find numbers in a text are not modelled; what they find is a parameter.
- RenderStability.CompleteMeansStable: an event that arrives between taking the tracker's snapshot and observing it is counted as after the observation.
- OutboundDelivery.GroupOutboundDelivery.ExecuteOutboundCall: the call of an ungrouped or ungated message is a single call and left out; the check for blocked groups before it is in GroupBlocking.
- Failover.ProfileFailoverProvider.constructor: a provider without profiles, which only returns an error, is left out.
- Messages.Lower: the case folding of an image detail covers ASCII letters and the two other code points that fold into one; no other can make a detail word.
- AdminAuthentication.AdminAuth.StartBrowserSession: the account seen before the lock is taken may be any that existed.
- AgentRunner.Run: message texts, token usage and durations are not part of the model; a tool call carries its signature, and the time left is a scripted answer (AgentTime models how it is divided).
- AgentTime.PhasesLeaveWorst: a model or tool that ignores its deadline is outside the model.
- Session file versions and key ids, file permissions and the temporary file behind an atomic write.
- Device names, addresses and other session metadata, and the listing of sessions.
- HTTP handlers, cookies, JSON binding, JWT encoding, bcrypt, HMAC and SHA-256.
- Login throttling, path switching of the console and the group-admin check: single-branch checks.
- SSE line framing and JSON decoding of streams; the stream model starts at decoded events.
- Protection of whole requests and structured segments, which applies the text masking field by field.
- Memory ranking and capability search, network guard tables, MCP and CDP transports, file and media resolution, the SQLite queues, log writing, prompts, statistics and the frontend.
