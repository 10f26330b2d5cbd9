# Restaurant SaaS backend: a Dafny model

This project models the parts of the backend that decide something over time or across components, and proves
what they promise for every input and every run.

- **Business slugs** (`SlugText`, `Decimal`, `Probe`, `Scan`, `Distinct`, `SlugAllocator`, `SlugNames`,
  `BusinessDirectory`). The `add_company_business_slug` migration gives every company a slug: a normalised base, an
  unbounded probe that shortens the prefix to make room for a growing suffix, and a pass over all companies;
  `SlugNames` says what a slug keeps of the name and which name that is. The migration exists in three identical
  copies, one per database; the table cites the first. The running application has its own check, its own allocator
  with a hundred attempts, and the lookup of a company by its slug.
- **The refund ledger in the database** (`RefundLedger`, `UniqueTable`, `ProviderEvents`). The triggers, unique keys
  and foreign keys of refund operations, tax documents, tax links and provider events, as a state machine over
  accepted and rejected row changes.
- **The refund protocol** (`Sums`, `RefundProtocol`, `RefundSafety`, `RefundHistory`, `RefundPosting`,
  `RefundCoverage`, `RefundProgress`, `RefundFinish`, `RefundReports`, `RefundRequests`, `RefundRuns`, `RefundRows`).
  Quotes, their allocation to payments, operations with cash and provider legs, webhooks, retries and posting, as the
  refund service performs them on one sale. `RefundProtocol` is the specification, `RefundRequests` writes out which
  requests it accepts and what they change, `RefundRows` is the code that changes the rows in place and is proved to
  refine it, `RefundRuns` holds concrete runs.
- **Token generations and the device heartbeat** (`Credentials`, `Heartbeat`). Which tokens are accepted while
  companies are suspended and reactivated, users log in and out, and devices are paired, rotated and revoked; the
  throttled `last_seen_at`.
- **Data migrations** (`BrandBackfill`, `TransferBackfill`, `InsertBackfills`). Four backfills and the constraints
  that are created after them.
- **Startup gate, routing and write gate** (`PyText`, `Uuid`, `Allowlist`, `Settings`, `TakeawayWrites`, `Startup`).
  The validators of the settings, the check of physical database names at startup, and what the two guarantee together
  about where requests are served and who may write.

Money is counted in satang and quantities in ten-thousandths, the precision of the columns. Strings are sequences of
characters. An exception is an `Err` value; a failing request leaves the rows as they were.

## Where the code falls short of what is wanted

The model follows the code. Each of these is proved, with the exact condition where there is one.

- The migration does not reserve `company-kitchen`, the running application does. A company that is given this slug
  cannot be reached (`BusinessDirectory.CompanyKitchenIsUnreachable`); for every other slug the two agree
  (`BusinessDirectory.NormalizeFixpoints`).
- The probe's attempts can repeat from counter ten million on (`SlugAllocator.AttemptsCanRepeat`); termination and
  distinctness of the slugs do not depend on it. From counter 10^52 on no attempt is a legal slug any more
  (`SlugAllocator.AttemptIsLegal`).
- A tax link may refer to a credit note that names no refund operation, and such a note can still be edited
  (`RefundLedger.UnnamedCreditNoteCanChange`, `RefundLedger.ChangeableIffNoSource`).
- docs/scopes/WP46-PROVIDER-TAX-CONTRACT-01.md asks that over-refunding fail closed. The sale as a whole is never
  over-refunded (`RefundHistory.BooksBalance`), but one payment can be: the shares of a failed operation are free for
  other quotes, and a retry or a late webhook brings the operation back without looking
  (`RefundRuns.RetryCanOverRefund`, `RefundRuns.WebhookCanOverRefund`). It happens exactly when an action posts a
  share that its payment no longer has (`RefundPosting.PaymentsStayWithin`), and never without a failed operation
  being taken up again (`RefundCoverage.OnlyRevivalsOverRefund`).
- An applied later webhook can move a completed refund out of its final state although its money is posted; it then
  never returns (`RefundRuns.CompletedCanBeContradicted`; exactly when: `RefundHistory.SettledUntilContradicted`).
- An operation can come to stand where no operator can finish it, for instance with one leg paid and another declined
  (`RefundRuns.PartlyPaidIsStuck`; exactly when: `RefundFinish.FinishedByTasksExactly`).
- An unsigned delivery is stored and takes the event id, so that the provider's signed delivery of the same event has
  no effect (`RefundReports.SignedReportLost`, `RefundRuns.SignedReportCanBeLost`). What a leg ends with depends
  exactly on whether its latest report is heard (`RefundReports.ShowsLatestReport`).
- A quote counts a posted refund twice while its tax document is pending, or after it was contradicted, and can be
  refused although the payment has the money (`RefundRuns.PendingTaxBlocksQuote`; exactly:
  `RefundCoverage.UsedExactly`).
- In production the public address must start with https:// before its trailing slashes are dropped, and may not
  afterwards (`Settings.AcceptedAddressCanLoseHttps`; exactly when: `Settings.StoredAddressIsHttps`).
- Until the Retail service itself moves, nothing at startup keeps its database apart from the old one
  (`Startup.RetailMayShareOldDatabase`).

## Model

| member | source | states |
|---|---|---|
| SlugAllocator.BaseSlugIsSlug | backend/alembic/versions/p12route0014_add_company_business_slug.py:23-28 | whatever the name, the base slug has 3 to 63 characters, is made of nonempty [a-z0-9] segments joined by single hyphens, and is not reserved |
| SlugAllocator.BaseSlugFixpoints | backend/alembic/versions/p12route0014_add_company_business_slug.py:23-28 | the texts `_base_slug` returns unchanged are exactly the legal slugs |
| SlugAllocator.BaseSlugIdempotent | backend/alembic/versions/p12route0014_add_company_business_slug.py:23-28 | `_base_slug` is a normal form: applied to its own output it changes nothing |
| SlugNames.BaseSlugIsTheName | backend/alembic/versions/p12route0014_add_company_business_slug.py:23-28 | a base slug is the words of the name, lower-cased and joined by hyphens: all of them up to 63 characters, else the first 63, or 62 where the 63rd is a hyphen; shorter than 3 or reserved, it is business- and the first twelve digits of the id |
| SlugNames.StrippedIsWhole | backend/alembic/versions/p12route0014_add_company_business_slug.py:23-26 | dropping non-ASCII characters, lowering, substituting and stripping a text comes to its words joined by hyphens |
| SlugNames.WordsOfRun | backend/alembic/versions/p12route0014_add_company_business_slug.py:24-26 | a run of ASCII letters and digits is one word, in lower case |
| SlugNames.WordsAtSeparator | backend/alembic/versions/p12route0014_add_company_business_slug.py:25-26 | any other ASCII character ends a word, and has no other effect |
| SlugNames.WordsIgnoreNonAscii | backend/alembic/versions/p12route0014_add_company_business_slug.py:24-25 | a character outside ASCII is as good as absent: it neither stays nor separates words |
| SlugNames.WholeKeeps | backend/alembic/versions/p12route0014_add_company_business_slug.py:23-26 | without its hyphens the joined text is exactly the letters and digits of the name, in lower case and in their order |
| SlugNames.AttemptText | backend/alembic/versions/p12route0014_add_company_business_slug.py:36-40 | a numbered attempt is the candidate, cut without a hyphen at the end where the whole would not fit into 63 characters, then eight digits of the id and from the second on the number |
| SlugAllocator.AttemptsDistinct | backend/alembic/versions/p12route0014_add_company_business_slug.py:34-40 | attempts with different counters from 2 on differ, although the prefix is truncated and stripped |
| SlugAllocator.FirstAttemptCollision | backend/alembic/versions/p12route0014_add_company_business_slug.py:34-40 | attempt 1 equals attempt k exactly when k's decimal form is the 8-character compact id and the truncated candidate already ends in it |
| SlugAllocator.AttemptsDistinctBelowTenMillion | backend/alembic/versions/p12route0014_add_company_business_slug.py:34-40 | all attempts with counters below ten million are pairwise distinct |
| SlugAllocator.AttemptsCanRepeat | backend/alembic/versions/p12route0014_add_company_business_slug.py:34-40 | beyond that they do repeat: a legal candidate, for every company whose compact id is a decimal numeral |
| SlugAllocator.AttemptIsLegal | backend/alembic/versions/p12route0014_add_company_business_slug.py:34-40 | a generated slug has the legal form and length exactly while its counter is below 10^52 |
| SlugAllocator.AttemptNotReserved | backend/alembic/versions/p12route0014_add_company_business_slug.py:20-40 | no generated slug is a reserved word, at any counter |
| Probe.Bound | backend/alembic/versions/p12route0014_add_company_business_slug.py:36-42 | pigeonhole: among n used slugs the probe finds every choice taken at most up to counter n + 2 |
| Probe.FirstFree | backend/alembic/versions/p12route0014_add_company_business_slug.py:36-42 | for every finite set of used slugs the probe ends, at a counter of at most its size plus 2, with the first choice that is free |
| SlugAllocator.UniqueSlug | backend/alembic/versions/p12route0014_add_company_business_slug.py:31-42 | the `while True` loop terminates for every candidate, id and finite used set, and returns the first fit |
| SlugAllocator.SlugsFirstFit | backend/alembic/versions/p12route0014_add_company_business_slug.py:31-59 | each company gets the first of candidate, attempt 1, attempt 2, ... that no earlier row holds, within its position plus 2 attempts |
| SlugAllocator.SlugsPrefixStable | backend/alembic/versions/p12route0014_add_company_business_slug.py:45-59 | appending companies to the ordered list never changes an earlier slug |
| SlugAllocator.SlugsDistinct | backend/alembic/versions/p12route0014_add_company_business_slug.py:52-65 | no two companies share a slug, however many rows there are |
| SlugAllocator.SlugsNotReserved | backend/alembic/versions/p12route0014_add_company_business_slug.py:20-59 | no company is given a reserved word, and every slug has at least 3 characters, however many rows there are |
| SlugAllocator.SlugsLegal | backend/alembic/versions/p12route0014_add_company_business_slug.py:45-65 | up to 10^52 - 2 rows every slug is legal in form and length and not reserved |
| SlugNames.SlugsUseName | backend/alembic/versions/p12route0014_add_company_business_slug.py:52-59 | a row's slug is the first fit of the base slug of its English name where there is one, whatever the other; else of the other name, else of the empty text |
| SlugNames.EnglishNameFirst | backend/alembic/versions/p12route0014_add_company_business_slug.py:52-59 | a first company called Thai Garden in English gets thai-garden, whatever its other name |
| SlugAllocator.CompanyTable.Upgrade | backend/alembic/versions/p12route0014_add_company_business_slug.py:45-65 | the migration fills the column of every row with its slug and passes NOT NULL and the unique index, unless a slug overflows the column |
| SlugAllocator.CompanyTable.FillColumn | backend/alembic/versions/p12route0014_add_company_business_slug.py:48-63 | the row loop with its growing `used` set computes exactly the slugs of the specification, row by row |
| SlugAllocator.UpgradeFits | backend/alembic/versions/p12route0014_add_company_business_slug.py:46-63 | up to 10^52 - 2 rows no slug overflows the column, so the migration succeeds |
| BusinessDirectory.PatternIsCanonical | backend/app/utils/business_slug.py:7-65 | pattern and double-hyphen test together accept exactly the canonical texts of 3 to 63 characters |
| BusinessDirectory.NormalizeAccepts | backend/app/utils/business_slug.py:59-69 | whatever the input, a text that comes out of `normalize_business_slug` is a legal slug and not reserved by the application |
| BusinessDirectory.NormalizeFixpoints | backend/app/utils/business_slug.py:59-69 | the texts the application accepts as they stand are exactly the migration's legal slugs other than company-kitchen |
| BusinessDirectory.NormalizeExactly | backend/app/utils/business_slug.py:59-69 | of an ASCII text with whitespace around it the check makes exactly the acceptable slug it spells but for capitals, or refuses it as invalid |
| BusinessDirectory.SuggestionIsSlug | backend/app/utils/business_slug.py:72-78 | a suggested slug always passes the check; it is the migration's base slug unless that is company-kitchen |
| BusinessDirectory.AttemptIsRuntimeSlug | backend/app/services/business_directory_service.py:32-36 | each of the hundred generated slugs passes the check, so generating never raises |
| BusinessDirectory.AllocateBusinessSlug | backend/app/services/business_directory_service.py:13-45 | the bounded allocator returns the specification's outcome: the request checked and free, or the first free of the suggestion and attempts 1 to 100, or the right error |
| BusinessDirectory.FirstFreeAttempt | backend/app/services/business_directory_service.py:32-44 | the loop over `range(1, 101)` finds the first free attempt or reports that all are taken |
| BusinessDirectory.RequestExactly | backend/app/services/business_directory_service.py:13-30 | a request in ASCII, whitespace and capitals included, is granted exactly when it spells an acceptable free slug, and refused as in use or invalid otherwise; an empty one counts as none |
| BusinessDirectory.AllocationIsFresh | backend/app/services/business_directory_service.py:13-45 | whatever is allocated is unused, legal, and passes the check unchanged |
| BusinessDirectory.AllocationFailsWhenCrowded | backend/app/services/business_directory_service.py:13-45 | without a request, allocation fails exactly when the suggestion and all hundred attempts are taken, which takes at least 100 used slugs |
| BusinessDirectory.AgreesWithMigration | backend/app/services/business_directory_service.py:13-45 | when it succeeds without a request, the running allocator gives a company the slug the migration's unbounded probe would, unless its base slug is company-kitchen |
| BusinessDirectory.ReachableBySlug | backend/app/services/business_directory_service.py:47-59 | some address leads to a company exactly when it is active and its slug passes the application's check |
| BusinessDirectory.CompanyKitchenIsUnreachable | backend/app/services/business_directory_service.py:47-59 | the migration gives a first company named Company Kitchen the slug company-kitchen, and then no address leads to it |
| BusinessDirectory.Directory.Register | backend/app/services/business_directory_service.py:13-45 | sign-up adds exactly one row under a slug no other row has, and that slug leads to the new company |
| RefundLedger.LinkPersists | backend/alembic/versions/wp46refund0022_add_provider_refund_tax_orchestration.py:196-209 | over any run a tax link survives with its operation, original document and key; its credit note is set at most once; what it refers to exists; no other link has its operation, key or credit note |
| RefundLedger.KeysStayUnique | backend/alembic/versions/wp46refund0022_add_provider_refund_tax_orchestration.py:196-251 | after any run no two documents share a number (unique since the table was created) or a source, and no two links an operation, a credit note or a key |
| RefundLedger.ReferencesStaySound | backend/alembic/versions/wp46refund0022_add_provider_refund_tax_orchestration.py:196-251 | after any run every operation, document and owner that is referred to exists, and every link has a legal status |
| RefundLedger.CreditNoteFrozen | backend/alembic/versions/wp46refund0022_add_provider_refund_tax_orchestration.py:275-288 | from the first state in which a document names a refund operation, its row is identical in all later states |
| RefundLedger.OneCreditNotePerOperation | backend/alembic/versions/wp46refund0022_add_provider_refund_tax_orchestration.py:246-288 | an operation is the source of at most one document over the whole run, and of that one unchanged |
| RefundLedger.ChangeableIffNoSource | backend/alembic/versions/wp46refund0022_add_provider_refund_tax_orchestration.py:275-288 | some accepted change can alter or remove a document exactly when it names no refund operation |
| RefundLedger.IssuedIsFinal | backend/alembic/versions/wp46refund0022_add_provider_refund_tax_orchestration.py:196-288 | a link whose credit note names its operation is final: link, note and their uniqueness survive every run |
| RefundLedger.UnnamedCreditNoteCanChange | backend/alembic/versions/wp46refund0022_add_provider_refund_tax_orchestration.py:196-288 | without that, keys and triggers do not freeze it: a concrete linked credit note that an update edits |
| RefundLedger.PutLink | backend/alembic/versions/wp46refund0022_add_provider_refund_tax_orchestration.py:196-209 | inserting a link keeps the database consistent exactly when the row passes its own checks |
| RefundLedger.PutDocument | backend/alembic/versions/wp46refund0022_add_provider_refund_tax_orchestration.py:246-251 | likewise for a document, which may amend itself |
| RefundLedger.ReplaceDocument | backend/alembic/versions/wp46refund0022_add_provider_refund_tax_orchestration.py:246-251 | likewise for an update, which may also change the primary key |
| RefundLedger.RemoveDocument | backend/alembic/versions/5d350c34d9d8_add_etax_documents.py:61 | deleting a document is consistent exactly when no link and no other document refers to it |
| RefundLedger.RemoveOperation | backend/alembic/versions/wp46refund0022_add_provider_refund_tax_orchestration.py:196-251 | deleting an operation is consistent exactly when no document and no link refers to it |
| RefundLedger.LinkUpdateExactly | backend/alembic/versions/wp46refund0022_add_provider_refund_tax_orchestration.py:255-274 | an update of a link is accepted exactly when it keeps operation, original, key and any credit note, and the row as it becomes passes its checks |
| RefundLedger.DocumentChangesExactly | backend/alembic/versions/wp46refund0022_add_provider_refund_tax_orchestration.py:275-288 | a document is updated or deleted exactly while it names no refund operation and the keys allow it |
| RefundLedger.InsertsExactly | backend/alembic/versions/wp46refund0022_add_provider_refund_tax_orchestration.py:196-274 | inserts and deletions of operations are accepted exactly where the keys allow it, and no link is ever deleted |
| RefundLedger.Ledger.AddLink | backend/alembic/versions/wp46refund0022_add_provider_refund_tax_orchestration.py:196-209 | the insert takes effect, with the specified new state, exactly when triggers and constraints accept it |
| RefundLedger.Ledger.ChangeLink | backend/alembic/versions/wp46refund0022_add_provider_refund_tax_orchestration.py:255-274 | likewise for an update of a link |
| RefundLedger.Ledger.RemoveLink | backend/alembic/versions/wp46refund0022_add_provider_refund_tax_orchestration.py:255-274 | a delete of an existing link is always rejected |
| RefundLedger.Ledger.AddDocument | backend/alembic/versions/wp46refund0022_add_provider_refund_tax_orchestration.py:246-251 | the insert takes effect exactly when the constraints accept it |
| RefundLedger.Ledger.ChangeDocument | backend/alembic/versions/wp46refund0022_add_provider_refund_tax_orchestration.py:275-288 | the update takes effect exactly when trigger and constraints accept it |
| RefundLedger.Ledger.RemoveDocumentRow | backend/alembic/versions/wp46refund0022_add_provider_refund_tax_orchestration.py:275-288 | the delete takes effect exactly when trigger and foreign keys accept it |
| RefundLedger.Ledger.RemoveOperationRow | backend/alembic/versions/wp46refund0022_add_provider_refund_tax_orchestration.py:196-251 | the delete takes effect exactly when nothing refers to the operation |
| RefundLedger.RunConsistent | backend/alembic/versions/wp46refund0022_add_provider_refund_tax_orchestration.py:196-254 | a database that checks every constraint at every change stays consistent over any sequence of changes |
| ProviderEvents.LogIsFirstDeliveries | backend/alembic/versions/wp46refund0022_add_provider_refund_tax_orchestration.py:182-193 | the event table holds exactly the first delivery of each provider and event id, in order; it only grows; replays change nothing, and only replays do |
| ProviderEvents.EventTable.Insert | backend/alembic/versions/wp46refund0022_add_provider_refund_tax_orchestration.py:182-193 | an insert is accepted exactly when the key is new |
| ProviderEvents.EventTable.Execute | backend/alembic/versions/wp46refund0022_add_provider_refund_tax_orchestration.py:20-29 | whatever updates and deletes are tried in between, the rows are what the inserts alone leave |
| RefundProtocol.AllocationExact | backend/app/services/refund_service.py:219-288 | the shares of a quote add up to its total, are positive, and go to distinct payments in order |
| RefundProtocol.AllocationSound | backend/app/services/refund_service.py:219-288 | no share exceeds what is left of its payment, and each payment is emptied before the next one is touched |
| RefundProtocol.AllocationComplete | backend/app/services/refund_service.py:219-288 | with every payment usable, a refund can be allocated exactly when that much is left |
| RefundProtocol.AllocationExactly | backend/app/services/refund_service.py:262-288 | it is refused for a missing provider link exactly when the payments before an unlinked one do not suffice, as over-refund exactly when all together do not; otherwise it goes to cash and linked payments only |
| RefundProtocol.AllocateShares | backend/app/services/refund_service.py:246-288 | the allocation loop computes the specified allocation, errors included |
| RefundSafety.PostAppends | backend/app/services/refund_service.py:707-719 | posting the ledger of an operation that has no entry yet appends one entry per share |
| RefundSafety.FinalizeBalances | backend/app/services/refund_service.py:659-747 | finalizing keeps refunded total and returned quantities equal to the sums over finalized operations, within what was sold |
| RefundSafety.FinalizeRecords | backend/app/services/refund_service.py:659-747 | finalizing keeps the ledger equal to the shares of the finalized operations, each once |
| RefundSafety.StepKeeps | backend/app/services/refund_service.py:96-657 | every action, accepted or rolled back, keeps the whole invariant of shapes, sums and ledger |
| RefundSafety.RunKeeps | backend/app/services/refund_service.py:96-747 | so does every run of actions |
| RefundHistory.BooksBalance | backend/app/services/refund_service.py:96-747 | after any run no more is refunded or returned than was sold, and the ledger adds up to exactly what the finalized operations refunded, each posted exactly once |
| RefundHistory.StepEffect | backend/app/services/refund_service.py:96-657 | every action does one of four things: nothing, append a quote, begin an operation, move one operation on |
| RefundHistory.RunLater | backend/app/services/refund_service.py:96-747 | ledger entries, operation terms and finalization survive everything that follows |
| RefundHistory.PostingNeedsSuccess | backend/app/services/refund_service.py:626-747 | the ledger changes only when an operation becomes finalized with all its legs succeeded, and then by exactly its shares |
| RefundHistory.SettledUntilContradicted | backend/app/services/refund_service.py:542-657 | a completed or tax-pending operation leaves those states exactly on an applied later webhook that reports other than success |
| RefundHistory.ContradictedForever | backend/app/services/refund_service.py:451-657 | and then no action ever brings it back to them |
| RefundPosting.AttemptOutcome | backend/app/services/refund_service.py:626-747 | what settling makes of operation and ledger follows from the state before the action, or it leaves everything alone |
| RefundPosting.StepPosts | backend/app/services/refund_service.py:659-719 | an action posts to each payment exactly the shares its guards say before it is made |
| RefundPosting.StepStaysWithin | backend/app/services/refund_service.py:659-719 | after an action no payment is paid back beyond its amount exactly when what it posts was still there to be posted |
| RefundPosting.PaymentsStayWithin | backend/app/services/refund_service.py:96-747 | over a whole run no payment is paid back beyond its amount exactly when each action posts what is still there at its time |
| RefundCoverage.UsedExactly | backend/app/services/refund_service.py:240-259 | a quote counts as used of a payment exactly what operations hold of it and, a second time, what finalized operations still reserve |
| RefundCoverage.CoveredStep | backend/app/services/refund_service.py:226-288 | from payments that cover what is held and each open quote, an action leads to such payments exactly when there is room for the failed operation it brings back, seen before the action |
| RefundCoverage.RunCovered | backend/app/services/refund_service.py:96-747 | along a run the payments are covered throughout exactly when every failed operation that comes back has room then |
| RefundCoverage.OnlyRevivalsOverRefund | backend/app/services/refund_service.py:96-747 | a run in which no failed operation is taken up again pays no payment back beyond its amount |
| RefundRuns.RetryCanOverRefund | backend/app/services/refund_service.py:493-511 | a run that retries a declined refund pays one payment back twice while the sale's totals hold |
| RefundRuns.WebhookCanOverRefund | backend/app/services/refund_service.py:542-583 | so does a run of webhooks, with room when the failed operation comes back and an open quote executed after it |
| RefundRuns.CompletedCanBeContradicted | backend/app/services/refund_service.py:542-657 | a run in which a completed refund is reported as failed: it shows as failed, finalized and posted |
| RefundRuns.PartlyPaidIsStuck | backend/app/services/refund_service.py:451-511 | a run after which one card is paid back, the other declined, and no tasks of an operator finish the refund |
| RefundRuns.SignedReportCanBeLost | backend/app/services/refund_service.py:551-580 | a run in which a signed report is lost because the same event came unsigned before, and the run without that, in which it is heard |
| RefundRuns.PendingTaxBlocksQuote | backend/app/services/refund_service.py:240-288 | a run after which a quote is refused although payment and sale still have the money, until the tax retry succeeds |
| RefundProgress.StatusSaysLegs | backend/app/services/refund_service.py:626-647 | in every reachable state the status of an operation under way says exactly how its legs stand, and a final one that all have succeeded |
| RefundProgress.QuoteExecutesOnce | backend/app/services/refund_service.py:327-428 | once a quote has been executed, executing it again has no further effect in any later state, under the same key or another |
| RefundFinish.NextTaskAdvances | backend/app/services/refund_service.py:451-511 | where legs can be finished, the next task is accepted and leaves strictly less to do |
| RefundFinish.NoTaskHelps | backend/app/services/refund_service.py:451-511 | where they cannot, no task makes it possible |
| RefundFinish.FinishedByTasksExactly | backend/app/services/refund_service.py:451-511 | in every reachable state, tasks of an operator can finalize an operation exactly when its legs allow it and the sale still takes it |
| RefundFinish.OpenQuotesRun | backend/app/services/refund_service.py:96-428 | in every reachable state a quote of the current version still fits quantities and total of the sale |
| RefundFinish.RefundCanFinish | backend/app/services/refund_service.py:327-511 | from every reachable state, an accepted execution and at most two tasks post the refund and bring it to tax-pending or completed, unless the provider never answers |
| RefundFinish.SilentProviderStaysUnknown | backend/app/services/refund_service.py:72-87 | a provider that never answers leaves only inquiries, and they leave every leg as it was |
| RefundReports.LogIsFirstCommitted | backend/app/services/refund_service.py:542-583 | the event log holds exactly the first delivery of each event id that was neither refused nor rolled back, in order |
| RefundReports.IdStandsForReport | backend/app/services/refund_service.py:551-560 | once stored, an event id changes nothing when its report comes again and is refused as a conflict with any other, in every later state |
| RefundReports.SequenceNeverFalls | backend/app/services/refund_service.py:561-580 | the sequence number of a leg never falls along a run, whatever else happens |
| RefundReports.SequenceExactly | backend/app/services/refund_service.py:561-580 | a leg reaches a sequence number over a run exactly when it had it or hears a signed report numbered so or higher |
| RefundReports.ShowsLatestReport | backend/app/services/refund_service.py:561-580 | a leg ends with the highest number reported on it exactly when the report with it is heard, and shows that report unless an operator acted on it |
| RefundReports.ArrivalOrderIrrelevant | backend/app/services/refund_service.py:542-583 | of two runs that make the same reports on a leg, in any order and among any other actions, one of which hears the latest, the other leaves the leg the same exactly when it hears the latest as well |
| RefundReports.UnsignedTakesTheId | backend/app/services/refund_service.py:551-572 | an unsigned delivery takes the event id without effect, and no delivery under it has one in any later state |
| RefundReports.SignedReportLost | backend/app/services/refund_service.py:551-572 | in every state, an event delivered unsigned and then signed leaves every operation as it was |
| RefundRequests.SoundRun | backend/app/services/refund_service.py:96-747 | every reachable state is sound: books, statuses, distinct event ids and distinct keys; the exact statements below hold in all such states |
| RefundRequests.ConfirmCashExactly | backend/app/services/refund_service.py:451-474 | in every reachable state, by version, status and legs: which error a cash confirmation is refused with, and that an accepted one makes all cash legs succeed, leaves the provider legs, and posts the refund or reports why not |
| RefundRequests.CashWaitsForProviders | backend/app/services/refund_service.py:451-470 | a cash leg only becomes succeeded by a confirmation, with every provider leg of the operation succeeded before and the refund posted by it, or by a signed webhook on that very leg |
| RefundRequests.InquireExactly | backend/app/services/refund_service.py:476-491 | likewise for an inquiry: it calls the provider once for each leg that is processing or unknown, and leaves every other leg |
| RefundRequests.RetryExactly | backend/app/services/refund_service.py:493-511 | likewise for a retry: refused while a leg is unknown, or without a declined one, or after a partial success; it calls the provider once for each declined leg |
| RefundRequests.QuoteExactly | backend/app/services/refund_service.py:96-325 | likewise for a quote: quantities that are left, a total that is left, payments that can take it; only the quote is appended |
| RefundRequests.ExecuteExactly | backend/app/services/refund_service.py:327-428 | likewise for an execution: approval, an unused and unexpired quote of the current version; cash legs are due, each provider leg has had one call |
| RefundRequests.KeyStandsForRequest | backend/app/services/refund_service.py:336-346 | an idempotency key stands for its request for good: in every later state the same request changes nothing, one of another quote or scenario is refused as a duplicate |
| RefundRequests.RetryTaxExactly | backend/app/services/refund_service.py:513-540 | a tax retry is accepted exactly on a finalized operation whose tax is pending, and posts nothing |
| RefundRequests.DeliverExactly | backend/app/services/refund_service.py:542-583 | which delivery is refused, replayed or in conflict, which is only stored, and what a heard report does to its leg |
| RefundRows.SaleRows.PostLedger | backend/app/services/refund_service.py:707-719 | the posting loop adds the missing entries, no others |
| RefundRows.SaleRows.UsedByPayment | backend/app/services/refund_service.py:243-259 | the accumulation over negative payments and in-flight legs gives what each payment has in use |
| RefundRows.SaleRows.CreateQuote | backend/app/services/refund_service.py:96-325 | a quote for a priced total makes exactly the specified change or raises the specified error |
| RefundRows.SaleRows.StartLegs | backend/app/services/refund_service.py:413-424 | the loop that adds a leg and calls the provider for it gives the legs of the specification |
| RefundRows.SaleRows.Execute | backend/app/services/refund_service.py:327-428 | executing a quote, or repeating that request, makes exactly the specified change or raises the specified error |
| RefundRows.SaleRows.ConfirmCashLegs | backend/app/services/refund_service.py:458-465 | the guards and the loop of a cash confirmation give the specified legs or error, which ConfirmCashExactly writes out |
| RefundRows.SaleRows.ProviderLegs | backend/app/services/refund_service.py:480-505 | the guards and the loops of inquiry and retry give the specified legs or error |
| RefundRows.SaleRows.Settle | backend/app/services/refund_service.py:626-647 | the branches on the set of leg states finalize or give the status of the specification |
| RefundRows.SaleRows.Finalize | backend/app/services/refund_service.py:659-722 | finalizing in place makes exactly the specified change or raises the specified error |
| RefundRows.SaleRows.FindEvent | backend/app/services/refund_service.py:552-555 | the search finds the event stored under an id, or that there is none |
| RefundRows.SaleRows.PerformAll | backend/app/services/refund_service.py:96-583 | any sequence of actions on the rows, failing ones rolled back, ends in the state of the specified run |
| Heartbeat.SeenIsRecent | backend/app/dependencies.py:426-433 | after each request the stored time is less than one interval old, not in the future, and not before the stored time at the start |
| Heartbeat.SeenNeverDecreases | backend/app/dependencies.py:426-433 | the stored time never goes back along a run |
| Heartbeat.WritesAreSpaced | backend/app/dependencies.py:426-433 | successive writes are at least one interval apart, also from the time stored before the run, and happen only at requests |
| Heartbeat.WritesPerWindow | backend/app/dependencies.py:426-433 | a window of length T sees at most T / interval + 1 writes |
| Heartbeat.DeviceRow.Touch | backend/app/dependencies.py:426-433 | the in-place update makes exactly the specified beat, and the caller is told the stored time |
| Heartbeat.DeviceRow.TouchAll | backend/app/dependencies.py:426-433 | a run of requests on the row ends in the state of the specified run |
| Credentials.UserAcceptedExactly | backend/app/dependencies.py:97-164 | a user token is accepted exactly when it claims what a login now would be given, user and company are in service, and its session, if it names one, is its user's own, not revoked and not yet expired |
| Credentials.DeviceAcceptedExactly | backend/app/dependencies.py:350-424 | a device token is accepted exactly when it claims what the device would now be issued, the device is paired and not revoked, the company active, and the branch in a business that serves the device |
| Credentials.OutdatedUserRefused | backend/app/dependencies.py:97-164 | a user token whose company or user generation has fallen behind is refused in every later state |
| Credentials.OutdatedDeviceRefused | backend/app/dependencies.py:350-424 | a device token whose company or device generation has fallen behind, or whose device is revoked, is refused in every later state |
| Credentials.UserTokensEnd | backend/app/dependencies.py:129-140 | suspending the company or invalidating the user's access ends an accepted token for good, reactivation included |
| Credentials.DeviceTokensEnd | backend/app/dependencies.py:369-381 | suspending the company, rotating or revoking the device ends an accepted token for good, reactivation and pairing included |
| Credentials.GenerationCountsSuspensions | backend/app/services/platform_service.py:1405-1500 | a company starts in generation 1, and its generation counts its suspensions |
| Credentials.GenerationCountsInvalidations | backend/app/services/company_access_service.py:51-70 | likewise for a user and the invalidations of the user's access |
| Credentials.GenerationCountsRenewals | backend/app/services/device_service.py:104-236 | likewise for a device and the suspensions of its company, its rotations and its revocation |
| Credentials.UnclaimedUntilFirstSuspension | backend/app/dependencies.py:129-140 | a token without a company generation is accepted only while the company has never been suspended |
| Credentials.LoginLifetime | backend/app/dependencies.py:97-164 | a login is accepted after any run exactly until its session expires, as long as no suspension, invalidation or logout of the run has ended it, and user and company are in service |
| Credentials.LogoutEnds | backend/app/services/auth_service.py:483-502 | logging out ends every token of the session: each is refused in every later state, at any time |
| Credentials.SessionRevokedExactly | backend/app/services/auth_service.py:320-502 | over any run a session keeps its user, company and expiry, and is revoked exactly by its logout, a suspension of its company or an invalidation of its user's access |
| Credentials.LastDecides | backend/app/services/platform_service.py:1405-1500 | after any run company and user are in service as the last suspension, reactivation or setting has left them |
| Credentials.NewCompanyWorks | backend/app/dependencies.py:97-424 | in a new company the login of a new user and the token of a new device, once paired, are accepted |
| Credentials.SuspensionTakesEffect | backend/app/services/platform_service.py:1405-1500 | suspending and reactivating a company ends a login, and the next login works |
| Credentials.HoldsUntilEnded | backend/app/services/device_service.py:104-326 | a valid device credential stays valid over a run exactly until an event of the run ends it |
| Credentials.PairedTokenLifetime | backend/app/services/device_service.py:238-324 | a token issued at pairing is accepted after any run, in any surroundings, exactly when nothing in the run ended it, the branch still has the brand and business it was issued for, on its own database, and that business serves the device |
| Credentials.PairingNeeded | backend/app/services/device_service.py:104-198 | a new device, and one that was suspended or rotated, must be paired first: until then no token of it whatsoever is accepted |
| Credentials.RevokedForGood | backend/app/services/device_service.py:200-267 | after a revocation no token of the device is ever accepted again, pairing and reactivation included |
| BrandBackfill.GuardMeansIndexable | backend/alembic/versions/5a6b7c8d9e01_add_tenant_brand_branch_foundation.py:40-64 | the guard passes exactly the data on which the unique index of one active brand per branch can be built |
| BrandBackfill.ResolvesActiveBrand | backend/alembic/versions/5a6b7c8d9e01_add_tenant_brand_branch_foundation.py:77-91 | the subquery resolves a branch to a brand exactly when that is its active brand |
| BrandBackfill.Backfilled | backend/alembic/versions/5a6b7c8d9e01_add_tenant_brand_branch_foundation.py:77-117 | an assignment keeps its brand or gets the active brand of its branch if there is one, and ends complete with legal values |
| BrandBackfill.Tables.Upgrade | backend/alembic/versions/5a6b7c8d9e01_add_tenant_brand_branch_foundation.py:40-117 | the migration passes exactly on data with at most one active brand per branch, and every row is what the updates make of it and satisfies the new checks |
| TransferBackfill.FlagsNeedShortfallsFirst | backend/alembic/versions/c74e8f219a60_add_transfer_receiving_fields.py:79-102 | flagged before the shortfalls are derived no transfer would be flagged; flagged after, exactly the short ones are |
| TransferBackfill.UpdatesDerive | backend/alembic/versions/c74e8f219a60_add_transfer_receiving_fields.py:21-102 | after the four updates an item of a completed transfer lacks the smallest quantity that is neither negative nor less than sent minus received, unknown quantities counting as none; a transfer is flagged exactly when completed with an item sent more than received; receipt times and shipping marks follow from completion and status |
| TransferBackfill.Tables.Upgrade | backend/alembic/versions/c74e8f219a60_add_transfer_receiving_fields.py:21-102 | the four updates in place, in their order, end in that state |
| InsertBackfills.CandidatesDistinct | backend/alembic/versions/cc45dd67ee89_add_daily_central_order_links.py:54-77 | the selected rows have distinct closures exactly when no closure has two orders |
| InsertBackfills.LinkOrders | backend/alembic/versions/cc45dd67ee89_add_daily_central_order_links.py:54-77 | the insert with its conflict clause stores the selected rows, first of each closure |
| InsertBackfills.LinksMatchOrders | backend/alembic/versions/cc45dd67ee89_add_daily_central_order_links.py:40-77 | the links match the orders with a closure one for one exactly when no closure has two orders; every closure is linked anyway |
| InsertBackfills.SubscriptionStatus | backend/alembic/versions/p10bill0012_add_saas_billing_lifecycle.py:140-143 | the statuses correspond one for one, but that every membership status other than pending, trial, active and cancelled becomes paused; all results are legal |
| InsertBackfills.InsertSubscriptions | backend/alembic/versions/p10bill0012_add_saas_billing_lifecycle.py:62-145 | the insert succeeds exactly when every trial ends after it starts and no company has two memberships, and leaves one subscription per membership, of its company and status, with the trial as first period |
| Allowlist.ParseUuidAllowlist | backend/app/config.py:223-233 | the loop returns exactly the identifiers between the commas, and fails exactly when some nonblank entry is none |
| Allowlist.MeaningExactly | backend/app/config.py:223-233 | a list can be read exactly when everything between its commas is blank or an identifier, and means those identifiers |
| Allowlist.ParseInvertsWriting | backend/app/config.py:223-233 | identifiers joined by commas, with whitespace around them, blank entries, repeats and in any order, parse to exactly their set |
| PyText.SpaceExactly | backend/app/config.py:227 | the characters that count as whitespace, by their code points |
| PyText.StripPadded | backend/app/config.py:226-227 | stripping removes whitespace around a text and nothing else |
| PyText.SplitJoin | backend/app/config.py:226 | splitting undoes joining parts that do not contain the separator |
| Settings.SettingsObject.ValidateSaasDelivery | backend/app/config.py:467-569 | the validator reaches the specified outcome and keeps the address without its trailing slashes |
| Settings.SettingsObject.ValidateAllowlists | backend/app/config.py:199-207 | the loop over the three lists stops at the first unreadable or empty one |
| Settings.AcceptedExactly | backend/app/config.py:30-569 | the validator accepts exactly the settings that fit in four respects, each written out on the fields: mail, Takeaway, Retail and Takeaway writes |
| Settings.StoredAddressIsHttps | backend/app/config.py:30-47 | in production the stored address is an HTTPS one exactly when something other than slashes follows the scheme |
| Settings.AcceptedAddressCanLoseHttps | backend/app/config.py:467-569 | an accepted production configuration whose stored address is not an HTTPS one |
| TakeawayWrites.DecideWrite | backend/app/routers/takeaway.py:106-127 | the request-time decision is the specified one, short cuts and unreadable lists included |
| TakeawayWrites.WritesAllowedExactly | backend/app/config.py:159-220 | with accepted settings writes are allowed exactly in development on a test origin by mode or older flag, or in production with an approval of 8 characters, on an HTTPS address that is neither local nor a test host, without the older flag, live or for listed contexts |
| TakeawayWrites.CanaryAdmitsSomebody | backend/app/config.py:200-207 | an accepted canary names at least one identifier in each list, so some context may write |
| TakeawayWrites.CanaryAdmitsTheListed | backend/app/config.py:200-233 | a canary whose lists are written out by hand admits exactly the contexts written down |
| Distinct.ElementsBound | backend/app/database.py:254-270 | a list has as many distinct elements as elements exactly when none repeats: what counting the set of names decides |
| Startup.ValidateRuntimeDatabaseNames | backend/app/database.py:192-270 | the check passes, or stops with the specified error, in every case; once cut over it passes only with pairwise distinct names |
| Startup.CountNames | backend/app/database.py:254-270 | growing the set and the expected count decides exactly whether the required names are pairwise distinct |
| Startup.CheckPassesExactly | backend/app/database.py:192-270 | the check passes exactly on settings whose cut-overs have their prerequisites, written out, and on names of which no two that must differ are equal |
| Startup.StartsExactly | backend/app/database.py:48-270 | accepted settings start exactly when moved services have their prerequisites and, once there is a projector, the databases at the addresses in use all differ |
| Startup.OnlyThreeErrorsReachable | backend/app/database.py:207-270 | for accepted settings no Retail or Takeaway prerequisite error is reachable at startup |
| Startup.ComparedDatabasesDiffer | backend/app/database.py:254-270 | two different sessions that startup compares are in different databases, once anything is cut over |
| Startup.EnabledRoutes | backend/app/dependencies.py:317-342 | every context whose service has moved is served, from the service's own session |
| Startup.CutoversAreSeparate | backend/app/dependencies.py:317-342 | services that have moved are served from databases apart from the old one and from each other |
| Startup.AllOnThreeDatabases | backend/app/dependencies.py:317-342 | with all three services moved, restaurant, retail_pos and takeaway reach three different databases, none the old one |
| Startup.ServedFromOwnAddress | backend/app/database.py:54-183 | for settings that run, each service that has moved is answered from the database at its own address, identities included; whatever has not moved stays at the old address, and everything else is turned away |
| Startup.RefusedExactly | backend/app/dependencies.py:317-342 | with accepted settings a context is turned away exactly when it is unknown, or Takeaway while that is off |
| Startup.LegacyModelsStayOutOfTakeaway | backend/app/dependencies.py:296-302 | the shared Restaurant and Retail models are never given the Takeaway database, refused for it and for unknown contexts, and otherwise served as any request |
| Startup.IdentityIsSeparate | backend/app/database.py:104-146 | moved identities are kept apart from the old database and from every moved service |
| Startup.CutOverNeedsOwnAddresses | backend/app/config.py:18-19 | a running cut-over has Platform and Restaurant addresses of its own; no fallback to the old one is left |
| Startup.RetailMayShareOldDatabase | backend/app/database.py:192-270 | before Retail itself has moved its database may be the old one; some layout passes startup that way exactly unless its address is compared for another service |

## Left out

- Unicode compatibility normalisation: an abstract function, of which only "leaves ASCII text alone" is used, and only where stated. `str.lower` likewise outside ASCII.
- UUID parsing, URL splitting and the list of approved test origins: parameters; the identifier parser is only assumed to read printed identifiers back.
- SlugAllocator.CompanyTable.Upgrade: takes the rows in the order the query returns them; a text longer than the column aborts, as PostgreSQL does, and transactions are not modelled beyond that.
- SlugAllocator.SlugsLegal: says nothing from 10^52 - 1 rows on, where AttemptIsLegal shows that attempts stop being legal.
- BusinessDirectory.Directory.Register: two sign-ups at the same moment are left to the unique index.
- RefundLedger.RunConsistent: row changes are atomic and acceptance is by definition that every constraint holds afterwards; which rows that lets in is said by PutLink, PutDocument, ReplaceDocument, RemoveDocument and RemoveOperation. TRUNCATE, dropped triggers, statements over several rows and concurrent transactions are not modelled.
- RefundLedger.Ledger.AddOperation: foreign keys of operations to companies, quotes, shifts and users only reject more.
- ProviderEvents.EventTable.Execute: one trigger function, on the event table; the attempt and audit tables carry the same one.
- RefundProtocol.AllocateShares: the total of a quote is an input; prices, discounts and tax rounding of refunded lines are not modelled. Negative or zero original payments are not part of a sale.
- RefundRows.SaleRows.CreateQuote: the idempotency key of a quote, the cashier shift and the pricing are not modelled; the rows are those of one sale.
- RefundRows.SaleRows.Execute: one requester; the approval token and the quote hash are one boolean, expiry another; the rest of a request is its quote and its provider scenario.
- RefundRows.SaleRows.ConfirmCashLegs: the idempotency keys of an operator's actions are not modelled; a repeated key changes nothing.
- RefundRequests.ExecuteExactly: for reachable sales, and with the inputs listed here for the rows.
- RefundRows.SaleRows.Finalize: stock movements, loyalty points, shift totals, audit rows, hand-off events and the contents of the credit note are not modelled; whether the credit note is ready is an input. The Retail cash pilot is not modelled.
- RefundReports.LogIsFirstCommitted: the events of one sale; an event id stands for provider and id, and an id already used for another sale is not modelled. Nor is the unique audit key of an operation, on which the second of two reports under the same id by different providers fails.
- RefundCoverage.OnlyRevivalsOverRefund: one direction; the exact condition is in RefundPosting.PaymentsStayWithin.
- RefundFinish.FinishedByTasksExactly: tasks on this operation alone, with nothing else happening in between.
- Credentials.PairedTokenLifetime: pairing codes, lockouts, refresh credentials and the branch context are inputs; access-token expiry is outside.
- Credentials.LoginLifetime: the claims are those of the rows at login (backend/app/services/auth_service.py:247-260); password checks and branch scope are outside. A refresh revokes its session, as a logout does, and adds another.
- Heartbeat.SeenIsRecent: the clock is an integer that does not run backwards; concurrent requests of one device are not modelled.
- Settings.SettingsObject.ValidateSaasDelivery: covers the email, Takeaway, Takeaway-write and Retail checks; the remaining validators only reject more, and the other reassigned texts (billing provider, test user names) are not modelled. Values outside the literal types of the settings are rejected before.
- Startup.ValidateRuntimeDatabaseNames: physical names are given by a function of the address; a failing name lookup stops startup before the check.
- Background workers, projectors, readiness checks of schemas, permission checks, the frontend, release and UAT evidence scripts, and plain schema definitions: no behaviour used above.
