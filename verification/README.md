# Sources, citations and credits: a verified model

The program answers questions and writes summaries over a user's materials, and charges credits for it.
This project models the four parts of it where a mistake is silent, and proves what they promise.

**The citation engine** (`Unicode`, `Strings`, `Numbers`, `Normalization`, `Typography`, `QuoteSearch`, `Elisions`,
`QuoteLocality`, `Cleaning`, `Chunking`, `Cuts`, `Pages`, `Citations`, `Stretches`, `Claims`). Source text is cleaned, cut into chunks and indexed by page. A
quote that the model proposes is searched in a *normalized* copy of the text and mapped back to exact offsets.
Normalization looks at the text around a character (a hyphen at a line end joins a word, runs of whitespace
collapse, one character may become several), so it is a theorem, and not a remark, that the fragment cut out of
the source contains the quote (`LocalNormalization`, `SliceContainsQuote`, `FoundAgain`). The search for a
quote with gaps is greedy; `LocateIsBest` proves it complete and minimal. Chunks tile the text, the runs that are
searched are exactly the maximal stretches of neighbouring chunks, and a citation names the right chunk and pages.

**The answer and its price** (`Answers`, `SummaryPlan`, `Pricing`). Verified claims pass a support check and two
regroupings and come out with footnote numbers; nothing is lost, doubled or invented on the way. The summary
planner splits the text into the fewest possible parts, and it is stated exactly when the price quoted before a
run is the price charged after it.

**The money protocol** (`Wallet`, `Payments`, `Journal`, `Policy`, `Generation`, `PaidCalls`, `Queue`,
`Lifecycle`, `Outcomes`, `Refinement`, `MessageLedger`, `MessageRuns`). The ledger, the payments journal with its two layers of
idempotency and its refunds, the anchored generation call, the leased job queue and the life of one message are
state machines whose steps are committed transactions. The theorems are about every run: any number of calls,
replays, aborts, cancels, retries, exceptions and lost workers, in any order. The last three modules run the life
of a message against the tables, among all other calls, and turn its promises into promises about the ledger.

**Small hard pieces** (`Periods`, `Subscriptions`, `Refresh`, `RateLimit`). Calendar periods, access paid for by
CloudPayments, single-use refresh tokens, and the sliding-window limiter.

Each state machine has a specification on values (a function from state to state) and, where the program changes
things step by step, a class or a method with a loop that is proved to compute it. The invariants and the
theorems about runs are lemmas about the specification.

## How the program is read

- A request of a user, or one committed transaction of a worker, is one step. A unique index or a CHECK is a
  guard of the step, and an error that the program raises rolls its transaction back.
- Whitespace, letters, lower case and NFKC (Unicode Standard Annex #15) are tables, a parameter of every theorem.
  `Tables.Valid` says the little that is relied on: a space and a line feed are whitespace, and the characters that
  end or close a sentence are not. What a character maps to is not restricted: the empty string, several
  characters and whitespace are handled as the program handles them.
  Two results about particular marks ask for a little more, all of it so in Unicode: `Typography` that quotes, dashes,
  yo and ye are not whitespace and that the plain marks have no other form (`KnowsMarks`), `Cleaning.ParagraphsStay` that the blanks that
  cleaning trims are whitespace.
- A context is any selection of chunks of cleaned and chunked versions, with a key of its own for each chunk; the
  results of `Stretches` are for contexts that hold no chunk twice.
- Ledger keys are a datatype with one constructor for each namespace of key strings; `refund:` is a constructor
  over the key that it reverses. Identifiers that the database draws are positions in the table.
- Integers are unbounded: credits and offsets stay far below 64 bits in the program.
- The model, the network, the clock and random values are parameters: an answer of the model is any value, and
  the provider of a generation delivers any usage or fails.

## Where the program and its description differ

- "Reversed exactly once" (`src/app/billing/payments.py:312`) is not what happens to a grant that was spent when
  its refund came: that refund writes no reversal row for it, and a later refund event takes credits bought since
  (`Journal.SpentGrantIsReversedLater`). `Journal.SecondRefundEvent` says exactly when, for refunds of any number of
  grants.
- A negative batch limit can make the charged price of a summary differ from the quoted one
  (`Pricing.NegativeLimitCounterexample`); `Pricing.QuoteIsChargeExactly` is the exact condition.
- "Never a second charge" (`src/app/domain/runs.py:6`) is a promise about one attempt, and holds
  (`PaidCalls.OneDebitPerGeneration`). For a message with its several attempts it holds exactly as long as nothing
  interrupts the worker between the commit of a settlement that debits (`src/app/generation/service.py:320`) and the
  commit of `_finish` (`src/app/domain/runs.py:358`): neither its death nor an exception, which the worker catches
  (`src/app/domain/worker.py:136-140`) and treats like any other failure (`Lifecycle.PromiseKeptExactly`). After such
  an interruption, a cancel and a retry lead to a second debit under a new key
  (`Lifecycle.InterruptedIsChargedTwice`); without any act of the user the stored result is replayed, and reported as
  free or, if it was too large to keep, as a failure (`Lifecycle.InterruptedIsReplayed`); on the last attempt the
  message fails with its debit (`Lifecycle.InterruptedIsFailed`). An interruption at any other point is harmless.
- The queue's guarantees need workers to report before their leases run out: a job can come to have two workers
  exactly when one outlives its lease (`Queue.SharedExactly`), and a late error then revives a finished job
  (`Queue.LateErrorRevives`).
- A revoked chain of refresh tokens is not always dead: the claim checks that the token is unused, not that it is
  unrevoked (`src/app/auth/service.py:340-348`), so a refresh that read its token before the revocation still gets a
  live pair (`Refresh.PendingIsReached`). `Refresh.DeadForGoodExactly` says when a revocation is final.

## Model

| member | source | states |
|---|---|---|
| `Cleaning.CleanIsCanonical` | src/app/domain/text.py:42-53 | cleaned text has no carriage return or other removed character, no blank at a line end, at most one empty line in a row and no whitespace at its edges |
| `Cleaning.CanonicalIsClean` | src/app/domain/text.py:42-53 | text of that form is left alone |
| `Cleaning.CleaningIsIdempotent` | src/app/domain/text.py:42-53 | cleaning twice is cleaning once |
| `Cleaning.EachBreakIsOne` | src/app/domain/text.py:48-50 | a line break of any style becomes one line feed, and the text around it is treated apart |
| `Cleaning.LinesAreTrimmed` | src/app/domain/text.py:51 | blanks before a line break disappear, no others |
| `Cleaning.FeedsAreSqueezed` | src/app/domain/text.py:52 | a run of line feeds is kept up to two |
| `Cleaning.ParagraphsStay` | src/app/domain/text.py:42-53 | whatever blank lines stand between two clean pieces, with breaks of any style, become one line break or one empty line, and the pieces stay as they are |
| `Normalization.NormalizeWithMap` | src/app/domain/text.py:71-105 | the two-list loop computes the normalized text and its index map |
| `Normalization.ContinuesWord` | src/app/domain/text.py:86-94 | the look-ahead after a hyphen tells whether the word goes on, and where |
| `Normalization.IndexInRange` | src/app/domain/text.py:71-105 | the index map never goes back and stays inside the text |
| `Normalization.LocalNormalization` | src/app/domain/text.py:71-105 | a fragment cut at two outputs, normalized alone, gives exactly the middle of the whole normalized text |
| `Normalization.SliceTail` | src/app/domain/text.py:71-105 | from a common point on, the run over a fragment writes what the run over the whole text writes |
| `Normalization.VisibleSource` | src/app/domain/text.py:60-105 | a visible output comes from a character that is not whitespace |
| `Typography.AlikeTextsAgree` | src/app/domain/text.py:60-105 | texts that differ in quote and dash styles, kinds of whitespace, case or yo alone compare as equal |
| `Typography.WordingIsKept` | src/app/domain/text.py:60-105 | a text of plain characters and single spaces is compared as it stands |
| `Typography.BrokenWordsAgree` | src/app/domain/text.py:86-94 | a word cut by a hyphen and a line break compares as the word in one piece |
| `QuoteSearch.FindQuote` | src/app/domain/text.py:118-154 | the restart loop terminates and computes the search specification |
| `QuoteSearch.WalkParts` | src/app/domain/text.py:140-147 | the inner loop finds the first place of each further part in turn |
| `QuoteSearch.GreedyEndsFirst` | src/app/domain/text.py:140-147 | exchange argument: no in-order choice of places ends before the greedy one |
| `QuoteSearch.SearchIsBest` | src/app/domain/text.py:135-154 | with two parts or more: a match exactly when some in-order reading fits the span limit, then the one that starts first and ends first |
| `QuoteSearch.SinglePartIsBest` | src/app/domain/text.py:129-133 | a quote without gaps is found at its leftmost place |
| `QuoteSearch.LocateIsBest` | src/app/domain/text.py:118-154 | a quote is found exactly when it is long enough and has an acceptable reading; the match is the best reading |
| `Elisions.SplitIsElision` | src/app/domain/text.py:34-34 | the split reads a quote from the left: a piece without an ellipsis, the first ellipsis with the whitespace around it, and so on |
| `Elisions.SplitExactly` | src/app/domain/text.py:34-34 | there is only one such reading |
| `Elisions.PiecesAreTheQuote` | src/app/domain/text.py:125 | the pieces and the separators between them are the quote, and no piece has an ellipsis |
| `Elisions.PartsArePieces` | src/app/domain/text.py:125-126 | the parts searched are, in order, exactly the normalized pieces that are not empty |
| `Elisions.AllPiecesOccur` | src/app/domain/text.py:118-154 | a quote is found only if all its pieces occur in the text, in order and without overlap |
| `Elisions.QuoteWithGap` | src/app/domain/text.py:118-154 | a quote with one gap has the parts of its two sides, and is found only if both occur, one after the other |
| `QuoteLocality.SliceReading` | src/app/domain/text.py:71-154 | the normalized fragment of a match is a window of the normalized text, with the same reading inside it |
| `QuoteLocality.SliceContainsQuote` | src/app/domain/text.py:118-154 | the fragment of a match, normalized alone, contains every part of the quote in order and without overlap |
| `QuoteLocality.FoundAgain` | src/app/domain/text.py:118-154 | the fragment passes the very search that found it, from its first to its last character |
| `Chunking.ScanSentences` | src/app/domain/text.py:192-196 | the scan over sentence ends from the left keeps the last one |
| `Chunking.FindCut` | src/app/domain/text.py:184-200 | a chunk is cut after a blank line, else a sentence, else a space, else at the hard end |
| `Chunking.CutAt` | src/app/domain/text.py:184-200 | a cut lies within the target and, but for the last chunk, after the minimal length |
| `Cuts.CutIsBest` | src/app/domain/text.py:184-200 | a chunk is cut after the last paragraph in reach, without one after the last sentence, without one after the last word, else at the target |
| `Chunking.ChunkText` | src/app/domain/text.py:169-207 | chunking terminates; its chunks follow the cutting rule, tile the text and are few |
| `Chunking.ChunkingTiles` | src/app/domain/text.py:169-207 | chunks are ordered, disjoint, non-empty, at most the target long, exact slices without edge whitespace; only whitespace is outside; their number is bounded |
| `Chunking.ChunkingIsUnique` | src/app/domain/text.py:169-207 | the cutting rule leaves no choice |
| `Pages.BuildPages` | src/app/domain/ingest_pdf.py:114-133 | the page loop joins the cleaned pages by two line breaks and records where each one starts and ends |
| `Pages.ExtractPdf` | src/app/domain/ingest_pdf.py:98-155 | too many pages, no text layer, empty text or the tiled text: exactly when each |
| `Pages.BisectSplits` | src/app/domain/text.py:217-227 | the binary search splits the starts into those at or before the offset and those after it |
| `Pages.PageHoldsCharacter` | src/app/domain/text.py:217-227 | the page found for a character holds it, with empty pages in between |
| `Citations.DistinctKeysStay` | src/app/domain/citations.py:99 | chunks with distinct keys are all kept by the dictionary |
| `Citations.RunsAreReal` | src/app/domain/citations.py:105-116 | runs of neighbouring chunks are stretches of the version's text, gaps written as spaces |
| `Citations.AllRunsAreReal` | src/app/domain/citations.py:100-116 | the same for the runs of all versions of a context |
| `Stretches.RunsAreStretches` | src/app/domain/citations.py:105-116 | the runs of a version's chunks in order are exactly its maximal stretches of consecutive chunks, with their keys, each chunk at its own offset and spaces in the gaps |
| `Stretches.NeighboursHaveRun` | src/app/domain/citations.py:100-116 | every stretch of neighbouring chunks of a context that cannot be made longer has its run |
| `Stretches.RunHasNeighbours` | src/app/domain/citations.py:100-116 | every run of a context is that of such a stretch |
| `Citations.FirstMatchIsFirst` | src/app/domain/citations.py:128-132 | the search over the runs takes the first that holds the quote |
| `Citations.ResolutionIsComplete` | src/app/domain/citations.py:124-148 | a citation is refused only for an unknown chunk or a quote that no run holds; the runs of the named chunk come first |
| `Stretches.ResolvedExactly` | src/app/domain/citations.py:95-148 | a citation is resolved exactly when its chunk is in the context and its quote is found in the text of neighbouring chunks, read with spaces in their gaps |
| `Citations.ResolvedIsReal` | src/app/domain/citations.py:95-148 | a resolved citation has exact offsets in its version, the version's characters except in gaps, and a chunk that holds its first character |
| `Citations.PagesOfCitation` | src/app/domain/citations.py:133-147 | `page` and `pageEnd` are the pages that hold the first and the last character of the quote |
| `Claims.CitationResolver.constructor` | src/app/domain/citations.py:95-116 | the resolver builds the dictionary and the runs of its chunks |
| `Claims.CitationResolver.BuildRuns` | src/app/domain/citations.py:106-116 | the inner loop extends the last run or starts a new one |
| `Claims.CitationResolver.ResolveQuote` | src/app/domain/citations.py:124-148 | `resolve` computes the resolution specification |
| `Claims.CitationResolver.KeepCitations` | src/app/domain/citations.py:157-171 | the citations kept of one claim, with the counters of proposed and dropped ones |
| `Claims.CitationResolver.VerifyClaims` | src/app/domain/citations.py:150-176 | the claims that pass, and four counters that account for every claim and citation |
| `Claims.VerifyOneIsRight` | src/app/domain/citations.py:150-176 | a claim passes exactly when it has text and a citation that resolves; it then has one to three different ones |
| `Claims.KeptIsFull` | src/app/domain/citations.py:157-171 | every citation that resolves is kept, first come first served, until three different fragments are |
| `Claims.VerifiedExactly` | src/app/domain/citations.py:150-176 | the verified claims are, in order, exactly the proposed ones that pass |
| `Claims.CitationsAreCounted` | src/app/domain/citations.py:157-166 | the citation counters are those of all proposed citations and of all that do not resolve |
| `Claims.VerifiedAreProposed` | src/app/domain/citations.py:150-176 | every verified claim is a proposed one, well cited |
| `Answers.CitationTable.Add` | src/app/domain/citations.py:179-191 | a footnote number names its citation; one citation has one number; the list only grows |
| `Answers.RegroupConserves` | src/app/domain/provider.py:264-286 | a conflict with fewer than two sides becomes a claim, and nothing is lost |
| `Answers.RegroupKeepsPairs` | src/app/domain/provider.py:268-272 | the conflicts that stay are exactly those with two sides |
| `Answers.ApprovedExactly` | src/app/domain/provider.py:240-242 | approved means that the last verdict on the number is `supported`; no verdict is no approval |
| `Answers.GatheredIsDistinct` | src/app/domain/provider.py:261-272 | the gathered claims and positions are different objects; every conflict has two sides |
| `Answers.ShownIsApproved` | src/app/domain/provider.py:274-286 | what is shown is exactly what was verified and approved |
| `Answers.ShownExactly` | src/app/domain/provider.py:274-286 | with the support check an item is shown exactly when the last verdict on it is `supported` |
| `Answers.Gather` | src/app/domain/provider.py:261-272 | verification of claims and conflicts, with the counters |
| `Answers.SupportFilter` | src/app/domain/provider.py:240-286 | unapproved items are dropped and counted, conflicts regrouped |
| `Answers.Number` | src/app/domain/provider.py:291-303 | a line's footnote numbers decode to the citations of its claim, in order |
| `Answers.NumberAll` | src/app/domain/provider.py:291-303 | the same for a list of claims or positions |
| `Answers.Render` | src/app/domain/provider.py:288-305 | every number is in range, every listed citation is referenced and listed once |
| `Answers.AnswerFrom` | src/app/domain/provider.py:245-315 | proposed claims are dropped or shown; the answer lays out what is shown |
| `Answers.AnswerConserves` | src/app/domain/provider.py:245-315 | decoding the shown blocks gives back the verified and approved claims, each exactly once |
| `Answers.ConflictsHaveTwoSides` | src/app/domain/provider.py:267-304 | every conflict shown has two positions |
| `SummaryPlan.PlanSummaryParts` | src/app/domain/provider.py:84-102 | one pass if all fits one, otherwise the greedy parts |
| `SummaryPlan.FillParts` | src/app/domain/provider.py:94-102 | the loop with the running size computes the greedy parts |
| `SummaryPlan.PlanIsPartition` | src/app/domain/provider.py:84-102 | the parts are non-empty and are all chunks in order; when it splits, parts of several chunks fit |
| `SummaryPlan.OnePassIsOnePart` | src/app/domain/provider.py:92-93 | a text that fits one pass is one part, and none without a chunk |
| `SummaryPlan.LongPartsFitExactly` | src/app/domain/provider.py:84-102 | parts of several chunks fit the size of a part, but for exactly the text that only fits one pass |
| `SummaryPlan.GreedyStaysAhead` | src/app/domain/provider.py:92-102 | exchange argument against any other fitting split |
| `SummaryPlan.PlanIsOptimal` | src/app/domain/provider.py:84-102 | no in-order split into fitting parts uses fewer |
| `Pricing.PartsAgree` | src/app/domain/pricing.py:30-45 | parts quoted and parts charged agree exactly when the batch limit is not negative or leaves one part |
| `Pricing.QuoteIsChargeExactly` | src/app/domain/pricing.py:30-67 | the quoted price is the charged price exactly when the batch limit is not negative, leaves at most one part, or the extra parts that are read leave the price as it is |
| `Pricing.QuoteIsCharge` | src/app/domain/pricing.py:30-67 | with a batch limit that is not negative the quoted price is the charged price |
| `Pricing.ShownQuoteIsCharged` | src/app/domain/summaries.py:37-69 | the quote shown is the price charged, for the parts that are read |
| `Pricing.PriceIsCapped` | src/app/domain/pricing.py:26-50 | a price is the base price and so much for each further part, cut at zero and at the most credits of a generation |
| `Pricing.OnePassIsBasePrice` | src/app/domain/pricing.py:30-67 | a text that fits one pass is read whole in one unit, quoted and charged at the base price |
| `Pricing.QuoteIsByParts` | src/app/domain/pricing.py:30-67 | a longer text is priced by the parts planned, up to the limit |
| `Pricing.NegativeLimitCounterexample` | src/app/domain/pricing.py:30-45 | a negative limit for which it is not |
| `Pricing.ReadIsPrefix` | src/app/domain/provider.py:325-331 | the chunks read are a prefix, all of them exactly when no part is cut off |
| `Pricing.CoverageOf` | src/app/domain/provider.py:397-431 | the coverage report: totals, covered characters, one line per source |
| `Pricing.PartialExactly` | src/app/domain/provider.py:397-431 | partial exactly when the plan has more parts than the limit |
| `Pricing.CoverageAddsUp` | src/app/domain/provider.py:397-431 | the lines per source sum to the totals |
| `Wallet.WalletService.EnsureWalletRow` | src/app/wallet/service.py:60-68 | a missing wallet is opened with balance zero |
| `Wallet.WalletService.InsertTx` | src/app/wallet/service.py:143-158 | a row is inserted unless its key is taken |
| `Wallet.WalletService.ReplayOrConflict` | src/app/wallet/service.py:94-114 | a taken key is a replay for the same kind and amount and a conflict otherwise |
| `Wallet.WalletService.Consume` | src/app/wallet/service.py:116-197 | the guarded debit computes the movement, and rolls back when it is refused |
| `Wallet.WalletService.Grant` | src/app/wallet/service.py:199-274 | the credit computes the movement, and rolls back when it is refused |
| `Wallet.MoveOutcomes` | src/app/wallet/service.py:94-197 | exactly when a movement is invalid, replayed, in conflict or short of credits |
| `Wallet.MoveEffect` | src/app/wallet/service.py:116-274 | a movement carried out adds its row and changes its user's balance; any other changes no balance |
| `Wallet.MoveKeepsSound` | src/app/wallet/service.py:116-274 | keys stay unique, amounts positive, balances equal to the ledger and not negative |
| `Wallet.EveryRunIsSound` | migrations/versions/0001_core_baseline.py:206-247 | the same after any run of movements |
| `Wallet.ReplayForever` | src/app/wallet/service.py:116-274 | a movement that went through is a replay ever after: same row, no balance changed |
| `Payments.RecordKeeps` | src/app/billing/payments.py:141-288 | a delivery keeps balances, reversals, the journal's sum and its links, and leaves no row `received` |
| `Payments.TakeBackKeeps` | src/app/billing/payments.py:291-443 | a refund keeps them too |
| `Payments.MatchedAreCredits` | src/app/billing/payments.py:347-356 | the credits found for a refund are the user's, positive and of different keys |
| `Payments.ReverseFirstConserves` | src/app/billing/payments.py:357-389 | the loop: revoked plus not recovered is what had no reversal, and the balance drops by the revoked |
| `Payments.RefundConserves` | src/app/billing/payments.py:291-443 | the same for the whole refund; the balance stays non-negative |
| `Payments.EveryRunIsConsistent` | src/app/billing/payments.py:1-42 | after any run of payments, refunds, grants, debits and aborts: balances are the ledger's, credits granted by payments are the journal's credits in the ledger, no row is left `received` |
| `Journal.PaymentRedelivery` | src/app/billing/payments.py:163-200 | a delivery seen before, however much later, changes nothing |
| `Journal.RefundRedelivery` | src/app/billing/payments.py:322-344 | a refund event seen before changes nothing |
| `Journal.RaisedExactly` | src/app/billing/payments.py:163-288 | a delivery raises, and leaves nothing behind, exactly when it names no product though it must or its grant cannot be carried out |
| `Journal.RowTellsTheAnswer` | src/app/billing/payments.py:141-288 | the journal's row has the status and the credits of the answer, and names the grant exactly when the delivery made or met one |
| `Journal.OneGrantPerPurchase` | src/app/billing/payments.py:243-288 | several events of one purchase, in any channels, credit it once |
| `Journal.OneReversalPerGrant` | src/app/billing/payments.py:360-389 | in every reachable state a grant has at most one reversal, a debit of at most its amount |
| `Journal.ReverseFirstTakes` | src/app/billing/payments.py:357-389 | the loop over the matched credits takes as much of what has no reversal as the balance holds |
| `Journal.ReversedByLoop` | src/app/billing/payments.py:360-389 | the loop leaves a reversal of exactly the credits that had one, or whose turn came while something was left |
| `Journal.RefundTakes` | src/app/billing/payments.py:357-389 | the same for the refund: it reports what it took and what it wrote off |
| `Journal.RefundRowNamesReversal` | src/app/billing/payments.py:399-408 | the row of a refund carries no credits, and names one of its reversals exactly when it took something |
| `Journal.ReversalRowIff` | src/app/billing/payments.py:360-389 | after a refund a grant has its reversal exactly if it had it before, or the balance exceeded what the credits before it had to take |
| `Journal.RevokedIff` | src/app/billing/payments.py:357-389 | a refund takes credits exactly when there is a balance and one of its grants has no reversal |
| `Journal.SecondRefundEvent` | src/app/billing/payments.py:306-389 | of two refund events that match a grant, with anything but its refunds in between, the second reverses it exactly when nothing was left for it in the first and something is in the second |
| `Journal.SpentGrantIsReversedLater` | src/app/billing/payments.py:306-318 | a run in which a spent grant is reversed by the second event |
| `Journal.PaymentsJournal.InsertReceived` | src/app/billing/payments.py:163-190 | layer one: a neutral row, or nothing for a known delivery |
| `Journal.PaymentsJournal.Finalize` | src/app/billing/payments.py:445-479 | the row gets its final status, credits and ledger link |
| `Journal.PaymentsJournal.RecordAndGrant` | src/app/billing/payments.py:141-288 | the transaction computes the specification of a delivery, rolled back on an error |
| `Journal.PaymentsJournal.ReverseCredits` | src/app/billing/payments.py:357-389 | the loop over the credits computes the reversals |
| `Journal.PaymentsJournal.RecordRefund` | src/app/billing/payments.py:291-443 | the transaction computes the specification of a refund |
| `Policy.GatesOnlyTighten` | src/app/policy/loader.py:89-105 | a gate can only block; without a blocking gate the decision stands |
| `Policy.AllowedMeans` | src/app/policy/engine.py:72-96 | allowed exactly when no gate blocks and there is an active subscription with enough credits, or an unused trial without one; and how it is then paid |
| `Policy.BlockedMeans` | src/app/policy/engine.py:72-96 | the reason of a block: that of the first gate that blocks; else an expired subscription whatever the balance, too few credits with an active one, or the used trial without any |
| `Generation.ApplyKeeps` | src/app/generation/service.py:184-320 | every transaction of a call keeps the invariant |
| `Generation.SettledKeeps` | src/app/generation/service.py:372-412 | a settlement keeps it: one trial per user, debits recorded, charges linked |
| `Generation.EveryRunKeeps` | src/app/generation/service.py:120-336 | the invariant after any interleaving of calls, deaths, recoveries and other movements |
| `PaidCalls.OneRowPerRequest` | src/app/generation/repository.py:89-118 | one generation row per user and key |
| `PaidCalls.OneDebitPerGeneration` | src/app/generation/service.py:394-404 | at most one debit per generation, written by a settlement that committed |
| `PaidCalls.ChargedMeansDebited` | migrations/versions/0001_core_baseline.py:335-343 | a charged row succeeded and names a debit of exactly that amount |
| `PaidCalls.OneTrialPerUser` | src/app/generation/repository.py:272-282 | at most one trial settlement per user ever commits |
| `PaidCalls.ReportsAreTrue` | src/app/generation/service.py:207-367 | in every run a row names a debit exactly when it was charged, and a call reports the credits of the settlement it made, or zero for a replay |
| `PaidCalls.SettlementOutcomes` | src/app/generation/service.py:372-412 | exactly when a delivered generation goes unpaid and when its settlement aborts |
| `PaidCalls.AloneIsARun` | src/app/generation/service.py:120-369 | a call by itself is one of the interleavings |
| `PaidCalls.NeverUnbilledAlone` | src/app/generation/service.py:132-320 | an allowed call, charged as quoted, is paid by credits or by the trial |
| `PaidCalls.SummaryIsPaid` | src/app/domain/pricing.py:53-67 | the same for a summary, with the price of its chunk sequence |
| `PaidCalls.GenerationService.AnchorRequest` | src/app/generation/service.py:184-206 | the anchor: a new row, a replay, a call in progress, or a row to retry |
| `PaidCalls.GenerationService.UpdateRow` | src/app/generation/repository.py:144-174 | a status update under its CHECK |
| `PaidCalls.GenerationService.FlipTrial` | src/app/generation/repository.py:272-282 | the trial is used by the first who asks |
| `PaidCalls.GenerationService.SettleAndFinalizeRow` | src/app/generation/service.py:286-320 | settlement and finalization compute the specification's step |
| `PaidCalls.GenerationService.RunCall` | src/app/generation/service.py:120-369 | gate, fuse, anchor, provider and settlement in order compute the call |
| `Queue.JobQueue.EnqueueJob` | src/app/domain/jobs.py:33-56 | a job is queued unless one is active for its target |
| `Queue.JobQueue.ClaimJob` | src/app/domain/jobs.py:59-78 | the earliest claimable job is taken, or there is none |
| `Queue.JobQueue.Finish` | src/app/domain/jobs.py:81-88 | the job is done and unlocked |
| `Queue.JobQueue.RetryLater` | src/app/domain/jobs.py:91-100 | the job is queued again, to run later |
| `Queue.JobQueue.Fail` | src/app/domain/jobs.py:103-110 | the job failed and is unlocked |
| `Queue.JobQueue.CancelQueued` | src/app/domain/jobs.py:113-121 | only jobs not started are dropped |
| `Queue.BackoffDoubles` | src/app/domain/jobs.py:124-125 | the waiting time starts at 30 seconds and doubles up to 900 |
| `Queue.CancelMakesRoom` | src/app/domain/jobs.py:33-121 | after a cancel nothing of the target waits, what has started goes on, and a new job is queued exactly when none is running |
| `Queue.RetriesWait` | src/app/domain/jobs.py:91-125 | a failed job with attempts left can be claimed exactly from the end of its waiting time on |
| `Queue.LockedExactly` | src/app/domain/jobs.py:59-110 | in every run a job is locked exactly while it runs |
| `Queue.Worker.Process` | src/app/domain/worker.py:126-155 | a report ends the job or queues it again, by the attempts of its claim |
| `Queue.Worker.RunOnce` | src/app/domain/worker.py:86-93 | one claimable job is worked on, or none is left |
| `Queue.Worker.Drain` | src/app/domain/worker.py:95-100 | the queue is empty unless the rounds ran out; the rounds are bounded |
| `Queue.OneWorkerPerJob` | src/app/domain/jobs.py:59-78 | never two workers on one job |
| `Queue.OneJobPerTarget` | migrations/versions/0002_sources_domain.py:241-247 | never two active jobs for one target |
| `Queue.EndedStaysEnded` | src/app/domain/jobs.py:81-121 | a job that ended never becomes active again |
| `Queue.ClaimsAreBounded` | src/app/domain/worker.py:126-155 | a job is claimed at most the configured number of times, plus one for each worker lost |
| `Queue.StepWorks` | src/app/domain/worker.py:126-155 | every claim and every report reduces what remains |
| `Queue.QueueDrains` | src/app/domain/worker.py:95-155 | without new jobs or lost workers a run has a bounded number of claims and reports |
| `Queue.SharedExactly` | src/app/domain/jobs.py:59-78 | from any state in order, a job can come to have two workers exactly when time passes beyond the lease of one at work |
| `Queue.LateErrorRevives` | src/app/domain/jobs.py:91-110 | when another worker finished the job of a late one, the error of the late one queues the finished job again or fails it |
| `Queue.LostLease` | src/app/domain/jobs.py:59-100 | a run from an empty queue to such a state |
| `Lifecycle.Message.constructor` | src/app/domain/chat.py:90-130 | a question is queued with its job, or blocked without one |
| `Lifecycle.Message.Enqueue` | src/app/domain/jobs.py:33-56 | an active job is not queued again |
| `Lifecycle.Message.CancelRequest` | src/app/domain/chat.py:161-175 | a message under way is canceled; only a waiting job is dropped |
| `Lifecycle.Message.RetryRequest` | src/app/domain/chat.py:177-213 | a failed, blocked or canceled message starts a new attempt |
| `Lifecycle.Message.StartHandler` | src/app/domain/runs.py:139-147 | a message that is not under way, or whose topic is gone, is left alone |
| `Lifecycle.Message.FinishEntity` | src/app/domain/runs.py:327-358 | only a success overrules a cancellation |
| `Lifecycle.Message.OnFailure` | src/app/domain/runs.py:311-324 | canceled, to be retried, or failed |
| `Lifecycle.Message.RetryOrFailJob` | src/app/domain/worker.py:142-155 | the job is queued again, or given up with the message still to be marked |
| `Lifecycle.Message.FailEntityRow` | src/app/domain/worker.py:157-175 | only a message under way is marked failed |
| `Lifecycle.FailurePolicy` | src/app/domain/runs.py:311-324 | a message under way whose provider failed stays under way, with its job in the queue, exactly when the failure may be retried and attempts are left; else it is failed; a cancellation comes first |
| `Lifecycle.CanceledStaysCanceled` | src/app/domain/runs.py:340-342 | only a success or a retry by the user ends a cancellation |
| `Outcomes.CourseComesTo` | src/app/domain/runs.py:131-358 | a worker left alone brings a message to the end that its course calls for, for each answer of the materials, the gate, the store, the provider and the wallet |
| `Outcomes.LeftAlone` | src/app/domain/runs.py:139-147 | a message that is not under way, or whose topic is gone, is left as it is |
| `Outcomes.DeniedIsBlocked` | src/app/domain/chat.py:90-130 | a question that is denied, and not free, is blocked whatever happens, until the user asks again |
| `Outcomes.AskedIsWorkedOn` | src/app/domain/chat.py:90-130 | any other question can be claimed at once, at its first attempt |
| `Outcomes.WaitingIsDropped` | src/app/domain/chat.py:161-175 | a message canceled before its job started is never worked on |
| `Outcomes.StartedGoesOn` | src/app/domain/chat.py:161-175 | a job that has started goes on after a cancellation |
| `Outcomes.RetriedIsWorkedOn` | src/app/domain/chat.py:177-213 | asked again, a message without a job starts a new attempt, or is blocked |
| `Lifecycle.RunIsWellFormed` | src/app/domain/runs.py:131-358 | in every run, interrupted anywhere or not: anchors and debits are of attempts made, a worker's point agrees with them, and a message that succeeded is left alone |
| `Lifecycle.StepKeeps` | src/app/domain/runs.py:131-358 | every step of the user and the worker, and an exception or a death anywhere else, keeps the money right; only an interruption between a debit and its report does not |
| `Lifecycle.DebitedAtMostOnce` | src/app/domain/runs.py:3-8 | in a run that is not so interrupted a message is debited at most once over all its attempts |
| `Lifecycle.NoSuccessNoDebit` | src/app/domain/runs.py:248-358 | in such a run a message that did not succeed has no debit, but for the moment between settling and finishing |
| `Lifecycle.SuccessReportsItsDebit` | src/app/domain/runs.py:301-308 | in such a run the credits reported are those of the one debit, or zero without any |
| `Lifecycle.PromiseKeptExactly` | src/app/domain/worker.py:126-155 | from any state in order, these three hold after a step and in all that can follow exactly when the step is not such an interruption |
| `Lifecycle.PaidIsReached` | src/app/generation/service.py:286-320 | the moment between a debit and its report is reached by the plainest run |
| `Lifecycle.InterruptedIsChargedTwice` | src/app/domain/runs.py:180 | after any such interruption a cancel and a retry lead to a second debit, and only that one is reported |
| `Lifecycle.InterruptedIsReplayed` | src/app/generation/service.py:322-369 | without any act of the user the stored result is replayed: success that reports zero, or a failure, with the debit in place |
| `Lifecycle.InterruptedIsFailed` | src/app/domain/worker.py:136-175 | on the last attempt the message fails with its debit |
| `Lifecycle.SettledWillSucceed` | src/app/domain/runs.py:301-345 | nothing but an interruption prevents success between settling and finishing |
| `Lifecycle.SuccessIsFinal` | src/app/domain/chat.py:161-191 | no run, interrupted or not, changes a message that succeeded |
| `Lifecycle.NeverReplayed` | src/app/domain/runs.py:298-300 | no stored result is replayed in a run that never interrupts a settled attempt the user waits for |
| `Lifecycle.ReplayedExactly` | src/app/domain/runs.py:298-300 | from any state in order, a stored result can come to be replayed exactly when the step is such an interruption |
| `MessageLedger.GateAgrees` | src/app/generation/service.py:184-206 | the anchor taken in the tables is the anchor of the message, for this attempt and all others |
| `MessageLedger.GateOutcome` | src/app/generation/service.py:184-206 | the call goes to the provider, is in progress or is replayed in the tables exactly when it is in the message's life |
| `MessageLedger.FailureAgrees` | src/app/generation/service.py:237-285 | a provider failure and the recovery of an orphan in the tables are those of the message |
| `MessageLedger.SettlementRefines` | src/app/generation/service.py:372-412 | a settlement against the wallet debits, charges and goes on as in the message's life |
| `MessageLedger.SettlementAgrees` | src/app/generation/service.py:286-320 | after it tables and message agree on all attempts |
| `MessageRuns.MessageStepAgrees` | src/app/domain/runs.py:131-358 | every step of the message, made in the tables, keeps the agreement on every attempt |
| `MessageRuns.ElsewhereLeaves` | src/app/generation/service.py:120-336 | steps of other calls, users and movements leave the message's rows and debits alone |
| `MessageRuns.JointStepKeeps` | src/app/domain/runs.py:131-358 | every step of either side keeps both invariants and the agreement |
| `MessageRuns.OneLedgerDebit` | src/app/domain/runs.py:3-8 | over any interleaving with the rest of the system the ledger holds at most one debit for all attempts of a message |
| `MessageRuns.LedgerIsReported` | src/app/domain/runs.py:301-308 | the ledger has a debit of the message only if it succeeded or is about to; the credits reported are its amount, or zero without one |
| `Periods.AddDaysIsExact` | src/app/products.py:81-84 | exactly so many days later; fails exactly beyond the last day of the calendar |
| `Periods.AddMonthsIsExact` | src/app/products.py:85-89 | exactly so many months later, the day kept or cut to the month's last; fails exactly beyond the last year |
| `Periods.MonthsLater` | src/app/products.py:85-89 | strictly later, by at most 31 days for each month |
| `Periods.OneMonth` | src/app/products.py:85-89 | a month is 28 to 31 days |
| `Periods.OneYear` | src/app/products.py:85-89 | a year is 365 or 366 days |
| `Periods.PeriodEndsLater` | src/app/products.py:74-89 | every period ends later than it starts, at the same time of day, by its own unit |
| `Periods.PeriodEndsExactly` | src/app/products.py:74-89 | a period has an end exactly when its days or months stay within the calendar |
| `Periods.ParsedExactly` | src/app/products.py:66-71 | a configured period is accepted exactly when, trimmed and in capitals, it is a written one |
| `Periods.AnyCaseIsRead` | src/app/products.py:66-71 | a written period is accepted with whitespace around it and in letters of either case |
| `Periods.GrammarIsPeriods` | src/app/products.py:63-71 | the grammar is exactly the written periods of one to 999 units |
| `Periods.WrittenMatches` | src/app/products.py:63-81 | a written period is read back |
| `Subscriptions.GrantedPaymentExtends` | src/app/billing_cloudpayments/service.py:334-372 | a granted payment ends access after its own time and after the current expiry, by one period |
| `Subscriptions.ExpiryExactly` | src/app/billing_cloudpayments/service.py:340-372 | access ends one period of the product, thirty days if none is known, after the payment or after the end of access that still runs, whichever is later |
| `Subscriptions.CreditedExactly` | src/app/billing_cloudpayments/service.py:300-338 | a payment is credited exactly when its class is known, it is new, the channel sells its product for credits, its key is free, and the access it buys ends within the calendar |
| `Subscriptions.CreditedAreRows` | src/app/billing_cloudpayments/service.py:220-237 | the payments counted as credited are the rows that they added to the ledger |
| `Subscriptions.ReplaysNeverExtend` | src/app/billing_cloudpayments/service.py:300-338 | a payment delivered again, however much later, moves neither credits nor access |
| `Subscriptions.CloudPaymentsService.UpsertSubscription` | src/app/billing_cloudpayments/service.py:340-372 | the expiry written is the specification's |
| `Subscriptions.CloudPaymentsService.Apply` | src/app/billing_cloudpayments/service.py:300-338 | journal and access in one transaction, rolled back together |
| `Subscriptions.CloudPaymentsService.ApplyAll` | src/app/billing_cloudpayments/service.py:220-237 | the payments are applied in order, each by itself, with their counters |
| `Refresh.AuthService.RevokeDevice` | src/app/auth/service.py:357-371 | every token of the user and device is revoked, no other |
| `Refresh.AuthService.ReadForRefresh` | src/app/auth/service.py:294-328 | the pre-check: unknown, reused, revoked, expired, or to be claimed |
| `Refresh.AuthService.ClaimAndIssue` | src/app/auth/service.py:340-355 | the conditional claim, with the new pair or the revocation |
| `Refresh.AuthService.RefreshOnce` | src/app/auth/service.py:294-355 | a refresh with nothing in between is the read followed by the claim |
| `Refresh.SingleUse` | src/app/auth/service.py:329-355 | a token yields at most one pair, in every interleaving |
| `Refresh.HashesAreUnique` | migrations/versions/0001_core_baseline.py:138 | every token has a hash of its own in every run |
| `Refresh.RefusedMeans` | src/app/auth/service.py:306-327 | the reason of a refusal: unknown, then used, then revoked, then expired |
| `Refresh.FirstClaimWins` | src/app/auth/service.py:340-355 | a claim gets a pair exactly when no other got one for the token |
| `Refresh.LosersRevoke` | src/app/auth/service.py:349-352 | a losing claim revokes every token of the user and device and issues nothing |
| `Refresh.ReuseRevokes` | src/app/auth/service.py:316-321 | a read of a used token does the same |
| `Refresh.ReuseKillsTheChain` | src/app/auth/service.py:316-352 | a reuse, found by the read or by the claim, leaves no unrevoked token of the user and device |
| `Refresh.ConcurrentRefreshRevokesThePair` | src/app/auth/service.py:340-371 | the token that the first of two concurrent refreshes got is revoked by the second, and stays revoked |
| `Refresh.DeadForGoodExactly` | src/app/auth/service.py:340-355 | a chain without an unrevoked token stays so, short of a new registration, exactly when no call stands at the claim of an unused token of it |
| `Refresh.PendingIsReached` | src/app/auth/service.py:306-355 | a run that leaves a revoked chain and a call that can still rotate one of its tokens |
| `RateLimit.Limiter.AllowRequest` | src/app/api_gateway/rate_limit.py:37-48 | trim, add and count compute the specification |
| `RateLimit.HoldsTheWindow` | src/app/api_gateway/rate_limit.py:37-48 | in every run, with the key expiring or not, the set holds exactly the requests of the window, denied ones too |
| `RateLimit.AtMostLimit` | src/app/api_gateway/rate_limit.py:37-48 | in every such run any half-open interval of one window has at most the limit of allowed requests |
| `RateLimit.DeniedExactly` | src/app/api_gateway/rate_limit.py:37-48 | a request is allowed exactly when its window holds at most the limit of requests |
| `RateLimit.ExpiryLosesNothing` | src/app/api_gateway/rate_limit.py:45 | a run in which the key expires ends like the run in which it never does: same set, same answers |

## Left out

- HTTP routers, schemas, configuration, metrics, audit records, logging and redaction: plumbing with one-branch facts.
- The language model, the web fetcher, PDF and HTML parsing, StoreKit and token signatures: an answer of the
  model, a page's raw text and a verified event are inputs.
- Races inside one transaction (a cancel between the read and the write of `_finish`, say): a step is a whole
  transaction, except that the retry of a failed generation and the read and claim of a refresh are steps of their own.
- Reading of a context (`build_context`, retrieval, history) and the prompt texts: they choose the chunks, and the
  theorems hold for any selection of chunks.
- The map and reduce calls of a summary and its statistics: claim counters do not balance on that path.
- Paragraph texts and footnote markers of an answer as strings: a line is the claim's text and its numbers.
- That every queued message has an active job: `retry` ignores the answer of `enqueue`, and a retry between
  `_finish` and `jobs.finish` leaves a message without a job.
- Wall-clock conditions of the orphan check: that an anchor is stale is a free choice, so every timing is covered.
- Subscription status changes by other channels, and by a refund, beyond "access may be set to anything".
- `str.upper` outside ASCII, and periods given in several time zones.
- `Lifecycle.DebitedAtMostOnce`: promises nothing for runs with an exception or a death between a debit and its report, because it is false for each of them (`Lifecycle.PromiseKeptExactly`). The job of a message has one worker at a time, as it has while leases hold (`Queue.OneWorkerPerJob`).
- `MessageRuns.OneLedgerDebit`: assumes that nobody but its own worker uses the keys of a message (`answer:<id>:<attempt>`, `summary:<id>:<attempt>`); every other call and movement is free.
- `Queue.OneWorkerPerJob`: assumes that workers report or die before their leases run out, because it is false otherwise (`Queue.SharedExactly`).
- `RateLimit.AtMostLimit`: assumes clock readings that do not decrease in the order of execution and a Redis that answers; an outage lets requests pass.
- `Answers.AnswerFrom`: the shown blocks and the counters are modelled, not the JSON around them.
- The demo topic, cursor pagination, product catalogue validation, purging and the outcome labels of webhooks: table look-ups.
