# Verified model of the freight platform's back end

This project models, in Dafny 4.11, the parts of the multi-tenant freight API
whose correctness rests on more than one function: the CSV reader and the error
report written for it, the base32 codec of the TOTP secrets, the CPF/CNPJ check
digits, customer imports (the row handler and the job's life under cancel and
retry, exceptions and automatic attempts), freight pricing, weight ranges and rate-table history, postal coverage,
refresh-token families, shipment tracking, user administration and the in-memory
login lock.

`dafny verify dfyconfig.toml` checks everything.

## How the model is built

- One module a component. Database tables are sequences and maps; ids are
  positions or natural numbers; the fields that only describe (names, notes,
  labels of audit records) are dropped.
- Where the program changes state, a class holds the tables and its methods take
  the handler's steps in the handler's order. Their postconditions equate the
  new state with a function of the old one (`Apply`, `Record`, `RowStore`, ...),
  and the theorems are about runs of that function.
- Six modules say what the definitions of another mean, in terms of files, columns,
  measures, tables, users and tokens: `CsvFiles` of `Csv`, `CustomerRows` of
  `CustomerImport`, `Quotes` of `Pricing`, `RateOffers` of `RateTables`, `Sessions`
  of `RefreshTokens` and `UserRequests` of `Users`.
- History fields (`seenRanges`, `exchanged`, `reach`, `handled`, ...) are read by
  no handler. They record what a theorem needs to compare a later state with.
- A property that turned out not to hold of the code is kept as a result: a lemma
  with the failing case, and the exact condition under which the code is right.

## What is assumed

- Each HTTP request is one atomic step. Several handlers read before they open
  their transaction (`apps/api/src/modules/logistics-admin/logistics-admin.service.ts:120-124`,
  `apps/api/src/modules/auth/auth.service.ts:741-755`), so this is an assumption about the deployment. The
  import job is the exception: there worker steps and user requests interleave.
- UUIDs, token secrets and family ids are fresh; a secret stands for its hash; the
  clock does not go back.
- Decimals are exact reals, rounded where the engine rounds and where a rate table's
  columns do (half away from zero). JavaScript numbers are exact in the ranges used.
- Text is a sequence of Unicode scalar values, where JavaScript counts UTF-16 units.
  Case mapping is the ASCII one, except in the base32 decoder.
- The queue runs an entry again after an exception, three attempts in all
  (`apps/api/src/infrastructure/queue/queue.module.ts:17-19`), in any order with
  the other entries of the job, and one at a time. The processor is registered with
  `concurrency: 2` (`apps/api/src/modules/imports/imports.processor.ts:19`), so two
  entries of one job could overlap; that is not modelled.

## Model

| member | source | states |
|---|---|---|
| Csv.ParseDelimited | apps/api/src/modules/imports/parsing/import-parser.ts:105-143 | the reader's loop, with its skipped characters, computes the step-by-step reading of the text without the blank rows |
| Csv.ReportRoundTrip | apps/api/src/modules/imports/imports.service.ts:215-217 | reading a printed error report gives back its header and cells exactly when every cell with a carriage return also holds a quote, a comma or a line feed |
| Csv.ReportDelimiter | apps/api/src/modules/imports/parsing/import-parser.ts:145-150 | the fixed header line forces the comma, whatever the data rows hold |
| Csv.ReadCell | apps/api/src/modules/imports/imports.service.ts:346-348 | a cell the printer protects is read back whole up to the separator after it |
| Csv.TableHasInk | apps/api/src/modules/imports/parsing/import-parser.ts:142 | the blank-row filter drops no row of a report, because of the row number |
| Csv.ReportUnreadable | apps/api/src/modules/imports/imports.service.ts:346-348 | one unprotected cell anywhere is enough to change what is read |
| Csv.RowsOnlyGrow | apps/api/src/modules/imports/parsing/import-parser.ts:129-136 | completed rows are never revised by what follows |
| Csv.CarriageReturnSplitsRow | apps/api/src/modules/imports/imports.service.ts:346-348 | the failing case: one message with a bare carriage return, which no handler writes today |
| Csv.EscapeMeans | apps/api/src/modules/imports/imports.service.ts:346-348 | a cell is printed as it is exactly when it holds no quote, comma or line feed |
| CsvFiles.FileReadsBack | apps/api/src/modules/imports/parsing/import-parser.ts:105-143 | any file written with quoting, either separator and LF, CRLF or CR line ends, whose separator is the one detected, reads back as its rows without the blank ones, whatever its cells hold |
| CsvFiles.HeaderDecides | apps/api/src/modules/imports/parsing/import-parser.ts:145-150 | the separator of a file is the semicolon exactly when its header line holds more semicolons than commas |
| CsvFiles.TableReadsBack | apps/api/src/modules/imports/parsing/import-parser.ts:105-150 | a file under a header of plain names, two at least when the separator is the semicolon, reads back as its rows without the blank ones, with nothing assumed about detection |
| CsvFiles.DropBlankMeans | apps/api/src/modules/imports/parsing/import-parser.ts:142 | a row is kept exactly when one of its cells is not all white space; no row is doubled |
| CsvFiles.FirstLineMeans | apps/api/src/modules/imports/parsing/import-parser.ts:146 | the line that decides the separator ends at the first line feed, or at the carriage return before it, and nowhere else |
| CsvFiles.SemicolonFile | apps/api/src/modules/imports/parsing/import-parser.ts:145-150 | a semicolon file of two lines is read as two rows of two cells |
| ErrorReports.HandlerReportReadable | apps/api/src/modules/imports/handlers/customer-import.handler.ts:114-116 | a report of rows as the import handlers write them, with constant codes and messages and references in digits, capitals, dashes and underscores, always reads back |
| ErrorReports.CustomerReportReadable | apps/api/src/modules/imports/handlers/customer-import.handler.ts:23-48 | so does every error report of a customer import, whatever was uploaded |
| ErrorReports.CustomerErrorMeans | apps/api/src/modules/imports/imports.processor.ts:77-89 | the stored error of a customer row holds its row number, its document, and the code and message of its error |
| Base32.GenerateSecret | apps/api/src/modules/auth/mfa.service.ts:14-34 | the encoder loop, on an overflowing 32-bit word, prints the five-bit groups of the byte string, padded with zeros |
| Base32.DecodeBase32 | apps/api/src/modules/auth/mfa.service.ts:81-98 | the decoder loop returns the octets of the letters' bits, for any text: padding and foreign characters are skipped, code points with an ASCII upper-case form count as those letters, the rest of the bits is dropped |
| Base32.RoundTrip | apps/api/src/modules/auth/mfa.service.ts:14-98 | decoding a printed secret returns its bytes, for every byte string of any length; the printed length |
| Base32.ShiftInBits | apps/api/src/modules/auth/mfa.service.ts:21 | shifting in 8 (or 5) bits keeps up to 24 pending bits although the word overflows |
| Base32.TopBits | apps/api/src/modules/auth/mfa.service.ts:23-26 | the shift and mask read exactly the oldest pending bits |
| Base32.LastLetter | apps/api/src/modules/auth/mfa.service.ts:29-31 | the last partial letter is the pending bits with zeros behind |
| Base32.CaseIgnored | apps/api/src/modules/auth/mfa.service.ts:86 | a secret typed in small letters, in part or in whole, decodes to the same bytes |
| Base32.LigaturesRead | apps/api/src/modules/auth/mfa.service.ts:86 | ligatures count as their letters |
| Base32.PublishedVector | apps/api/src/modules/auth/mfa.service.ts:14-34 | the encoder prints the letter f as in section 10 of RFC 4648, but for the padding |
| Documents.ValidatorsAgree | apps/api/src/modules/customers/customers.service.ts:268-319 | the text validator and the import handler's digit-array validator accept the same digit strings of every length |
| Documents.CpfDigitsAgree | apps/api/src/modules/imports/handlers/customer-import.handler.ts:140-144 | length-derived weights and the explicit factor give the same CPF digit, for any length |
| Documents.CnpjDigitsAgree | apps/api/src/modules/imports/handlers/customer-import.handler.ts:146-150 | the two weighted CNPJ sums give the same digit for any weights |
| Documents.AcceptedIsGenerated | apps/api/src/modules/imports/handlers/customer-import.handler.ts:132-138 | a CNPJ is accepted exactly when it is not one repeated digit and the generator rebuilds it from its first twelve digits |
| Documents.GeneratedIsAccepted | apps/api/prisma/seed.ts:1280-1291 | a generated CNPJ is accepted exactly when its twelve base digits are not all zero |
| Documents.KnownDocuments | apps/api/src/modules/customers/customers.service.ts:268-319 | a known CPF and a known CNPJ are accepted with their last check digit and with no other |
| Documents.RepeatedRefused | apps/api/src/modules/imports/handlers/customer-import.handler.ts:124-138 | copies of one digit are never accepted, by either validator |
| CustomerImport.CustomerImportHandler.ProcessRow | apps/api/src/modules/imports/handlers/customer-import.handler.ts:23-89 | what one row does to customers, addresses and the references seen, and the status it reports, under each strategy |
| CustomerImport.CustomerImportHandler.ProcessRows | apps/api/src/modules/imports/imports.processor.ts:51-104 | the row loop, uninterrupted, is the import of the whole file |
| CustomerImport.ReplayEquivalent | apps/api/src/modules/imports/handlers/customer-import.handler.ts:34-88 | any prefix followed by the whole file leaves what one uninterrupted run leaves, under every strategy |
| CustomerImport.ImportIdempotent | apps/api/src/modules/imports/imports.service.ts:181-202 | importing a file twice is importing it once |
| CustomerImport.CrashReplayExact | apps/api/src/modules/imports/handlers/customer-import.handler.ts:50-86 | after a crash between the two writes of a row, replay restores the customers always and the addresses exactly when that row was not about to insert one |
| CustomerImport.CrashCanLoseAddress | apps/api/src/modules/imports/handlers/customer-import.handler.ts:71-86 | the failing case: one new customer with a city loses its address for good |
| CustomerImport.ImportMeaning | apps/api/src/modules/imports/handlers/customer-import.handler.ts:34-88 | per document, the first valid row decides; customers that were there change only under UPDATE and gain no address, new ones carry that row's fields and address |
| CustomerImport.OutcomeExact | apps/api/src/modules/imports/handlers/customer-import.handler.ts:36-48 | a row is a success exactly when it writes, and every other row leaves the tables alone |
| CustomerImport.FileApplied | apps/api/src/modules/imports/handlers/customer-import.handler.ts:36-69 | a row that got past the duplicate check stays applied to the end of the file |
| CustomerRows.FieldsOfColumns | apps/api/src/modules/imports/handlers/customer-import.handler.ts:23-32 | of an uploaded row whose columns are clean, each of the seven fields is the text of the column mapped to it |
| CustomerRows.SeparatorsIgnored | apps/api/src/modules/imports/handlers/customer-import.handler.ts:26-30 | of document, phone and postal code columns exactly the digits count, whatever stands between and around them |
| CustomerRows.LettersOfColumns | apps/api/src/modules/imports/handlers/customer-import.handler.ts:25-31 | the other columns are trimmed, the email is put in small letters and the state in capitals |
| CustomerRows.UnmappedIsEmpty | apps/api/src/modules/imports/handlers/customer-import.handler.ts:92-95 | a field without a mapping, or mapped to a column the file lacks, is empty |
| CustomerRows.ErrorsInOrder | apps/api/src/modules/imports/handlers/customer-import.handler.ts:97-104 | the exact condition for each validation error, what is looked for before it included, and for none |
| CustomerRows.EmailMeans | apps/api/src/modules/imports/handlers/customer-import.handler.ts:100 | the search for an at sign and a dot accepts exactly the texts local@host.top with three nonempty parts free of white space and at signs |
| CustomerRows.NewCustomerStored | apps/api/src/modules/imports/handlers/customer-import.handler.ts:50-86 | a valid clean row with a new document stores one customer and one address holding the texts of its columns, and nothing else |
| CustomerRows.EmptyColumnsStored | apps/api/src/modules/imports/handlers/customer-import.handler.ts:50-86 | empty columns are stored as absent, no address is written when all three address columns are empty, and a partly empty one is filled with the defaults |
| CustomerRows.ExistingCustomer | apps/api/src/modules/imports/handlers/customer-import.handler.ts:43-71 | a document the tenant has: replaced, skipped or refused by strategy; no other customer changes and no address is added |
| CustomerRows.SecondRowRefused | apps/api/src/modules/imports/handlers/customer-import.handler.ts:34-37 | a document counts as used after its first valid row, under every strategy, and an invalid row writes nothing and uses nothing up |
| ImportCounters.AlwaysSound | apps/api/src/modules/imports/imports.processor.ts:52-103 | in every run at all, processed is success + error + skipped and progress is in 0..100 |
| ImportCounters.AlwaysBalanced | apps/api/src/modules/imports/imports.processor.ts:52-103 | in every orderly interleaving, automatic attempts included: the counters are those of the stored rows or of all but the last, and rows are stored in order, each once |
| ImportCounters.StepBalanced | apps/api/src/modules/imports/imports.processor.ts:57-103 | every step keeps that, and so does a retry that meets no attempt with stored rows |
| ImportCounters.RetryExact | apps/api/src/modules/imports/imports.service.ts:178-202 | after an accepted retry the stored results number the processed rows, or one more, in every continuation without a retry, exactly when no attempt that has stored a row goes on |
| ImportCounters.OrderlyExact | apps/api/src/modules/imports/imports.service.ts:178-202 | over whole runs: the counts agree at every point and in every retry-free continuation exactly when no retry was accepted while such an attempt was going on |
| ImportCounters.HastyRetryUnbalances | apps/api/src/modules/imports/imports.service.ts:178-202 | the failing case: cancel and retry after the first row is stored and before the worker has noticed |
| ImportCounters.PercentNearest | apps/api/src/modules/imports/imports.processor.ts:171-173 | progress is the nearest whole percentage |
| ImportCounters.ProgressMonotone | apps/api/src/modules/imports/imports.processor.ts:171-173 | progress never goes back as rows are processed |
| ImportCounters.AlwaysReported | apps/api/src/modules/imports/imports.processor.ts:91-121 | in every run at all, the progress shown is the percentage of the counters shown over the rows of the file, and a COMPLETED job has processed every row and not only with errors |
| ImportCancellation.CancelExact | apps/api/src/modules/imports/imports.service.ts:159-176 | the most rows handled after a cancel, over every continuation without a retry: the row of a worker past its check, one row for each attempt left but one, and for that one all rows up to the first whose number is taken; the bound is reached |
| ImportCancellation.CancelEffective | apps/api/src/modules/imports/imports.service.ts:164-172 | a cancel is followed by at most one more row whatever happens exactly when it leaves no attempt, or one that gets no further than the first row while no row is at work |
| ImportCancellation.CancelStops | apps/api/src/modules/imports/imports.processor.ts:57-62 | without exceptions and with no retry queued, exactly the row of a worker past its check is still handled, in every interleaving |
| ImportCancellation.CancelWhileRunning | apps/api/src/modules/imports/imports.processor.ts:57-62 | in every interleaving of one worker with cancel requests, without retries and exceptions, a cancel is followed by at most one more row |
| ImportCancellation.ThrowAfterCancelRunsAgain | apps/api/src/infrastructure/queue/queue.module.ts:17-19 | the failing case: cancel during the first row, which then throws, and two rows more than the whole file are handled |
| ImportCancellation.QueuedRetryIgnoresCancel | apps/api/src/modules/imports/imports.processor.ts:35-41 | the other failing case: a canceled job whose retry is queued is picked up and every row handled |
| ImportCancellation.QueuedRetryReached | apps/api/src/modules/imports/imports.service.ts:178-202 | that state is reached by a cancel and a retry of a new job |
| ImportCancellation.LateCancelOverwritten | apps/api/src/modules/imports/imports.processor.ts:57-62 | a worker left alone after a cancel ends CANCELED exactly when it still has a row to check for; otherwise it writes COMPLETED or FAILED over the cancel |
| ImportTables.AlwaysExplained | apps/api/src/modules/imports/imports.processor.ts:51-131 | in every run whose retries keep mapping and strategy, at every moment the customers are those of an uninterrupted run over the furthest prefix reached, and the addresses too but for the lost ones |
| ImportTables.CompletedExact | apps/api/src/modules/imports/imports.processor.ts:106-121 | whatever cancels, failures and retries with the same mapping and strategy came before, a COMPLETED job has left the customers of one uninterrupted run, and its whole tables exactly when no exception fell between the two writes of a row about to insert an address |
| ImportTables.CompletedIsLastAttempt | apps/api/src/modules/imports/imports.processor.ts:35-121 | in every run at all, retries that replace mapping or strategy included, a COMPLETED job has left exactly what one uninterrupted run with the options of its last attempt makes of the tables that attempt found |
| ImportTables.CompletedCanLoseAddress | apps/api/src/modules/imports/handlers/customer-import.handler.ts:60-86 | the failing case: a one-row file that adds an address ends COMPLETED without it, under UPDATE and SKIP |
| ImportTables.LosingFileExists | apps/api/src/modules/imports/handlers/customer-import.handler.ts:60-86 | there is such a file: a generated CNPJ, a name and a city |
| ImportTables.RowAgain | apps/api/src/modules/imports/handlers/customer-import.handler.ts:34-88 | a row handled again writes nothing, whether it is interrupted or not |
| ImportTables.RetryOptionsUsed | apps/api/src/modules/imports/imports.service.ts:190-191 | every attempt that starts after an accepted retry, and before another one, runs with the mapping and the strategy submitted, or the old ones where none was |
| ImportTables.RetryMeans | apps/api/src/modules/imports/imports.service.ts:178-202 | a retry is accepted exactly for failed and canceled jobs; results and counters are emptied, three attempts are queued, tables and a worker still at work are left alone |
| ImportTables.CancelMeans | apps/api/src/modules/imports/imports.service.ts:159-173 | a cancel is accepted exactly for pending and running jobs; the first entry leaves the queue, every retry stays, and nothing else changes but the status |
| ImportTables.ThrowMeans | apps/api/src/modules/imports/imports.processor.ts:131-140 | what an exception leaves: the status, the entry queued again while attempts are left, stored results untouched and no address written |
| ImportTables.CreatedMeans | apps/api/src/modules/imports/imports.processor.ts:38-55 | a new job waits with three attempts, and its first attempt starts from its options with no reference seen |
| ImportProtocol.TallyMeans | apps/api/src/modules/imports/imports.processor.ts:106 | the counters that decide the final status say whether some row failed and whether some row succeeded |
| ImportProtocol.ImportJobRecord.Process | apps/api/src/modules/imports/imports.processor.ts:33-121 | the worker method undisturbed, from any stored results: it throws exactly when a row number is taken; tables, stored results in order, counters and final status |
| ImportProtocol.ImportJobRecord.DoCancel | apps/api/src/modules/imports/imports.service.ts:159-176 | when a cancel is taken, and what it changes in the job and the queue |
| ImportProtocol.ImportJobRecord.DoRetry | apps/api/src/modules/imports/imports.service.ts:178-202 | when a retry is taken, what it resets, and the mapping and strategy it may replace |
| Pricing.Calculate | apps/api/src/modules/freight-simulations/pricing/freight-pricing.engine.ts:59-103 | the total is max(base + weight, minimum) plus the charges; the TOTAL component equals the sum of all the others, listed in order; every amount is in whole cents; the delivery estimate is the ship date and the deadline |
| Pricing.OpenComponents | apps/api/src/modules/freight-simulations/pricing/freight-pricing.engine.ts:64-82 | the components before the charges sum to max(base + weight, minimum) |
| Pricing.AddCharges | apps/api/src/modules/freight-simulations/pricing/freight-pricing.engine.ts:84-88 | the charge loop adds the nonzero charges in order, and exactly their sum |
| Pricing.SumInCents | apps/api/src/modules/freight-simulations/pricing/freight-pricing.engine.ts:173-175 | the final rounding changes nothing |
| Pricing.CalculatePackageMetrics | apps/api/src/modules/freight-simulations/pricing/freight-pricing.engine.ts:106-127 | the accumulating loop gives the rounded total weight, volume and cubed weight |
| Quotes.VolumeInCubicCm | apps/api/src/modules/freight-simulations/pricing/freight-pricing.engine.ts:117 | a million times the volume of a package is length times width times height times quantity in centimetres |
| Quotes.QuantitySplits | apps/api/src/modules/freight-simulations/pricing/freight-pricing.engine.ts:115-120 | a package of quantity m + n measures, in volume and weight, what two packages of quantity m and n measure |
| Quotes.VolumeScales | apps/api/src/modules/freight-simulations/pricing/freight-pricing.engine.ts:117 | each dimension scales the volume |
| Quotes.ChargeableIsLarger | apps/api/src/modules/freight-simulations/pricing/freight-pricing.engine.ts:63 | the chargeable weight is the larger of the real and the cubic weight, each to the gram |
| Quotes.HalvesAwayFromZero | apps/api/src/modules/freight-simulations/pricing/freight-pricing.engine.ts:138-145 | rounding is to the nearest, halves away from zero |
| Quotes.PlacesKept | apps/api/src/modules/freight-simulations/pricing/freight-pricing.engine.ts:122-126 | how many places cents, grams, prices a kilogram and volumes keep |
| Quotes.ExcessWeight | apps/api/src/modules/freight-simulations/pricing/freight-pricing.engine.ts:69-74 | only the weight above the lower bound of the range is priced by the kilogram |
| Quotes.ChargeBasis | apps/api/src/modules/freight-simulations/pricing/freight-pricing.engine.ts:129-136 | ad valorem and insurance are a share of the cargo, the others of the subtotal; a discount is taken off |
| Quotes.SampleQuote | apps/api/src/modules/freight-simulations/pricing/freight-pricing.engine.ts:59-103 | two cubes of one metre, 300 kg a cubic metre and four charges: 2 cubic metres, 600 kg and the total |
| Quotes.SampleCharges | apps/api/src/modules/freight-simulations/pricing/freight-pricing.engine.ts:84-88 | the entries of those charges, with their titles, amounts and places |
| Quotes.DeliveryMeans | apps/api/src/modules/freight-simulations/pricing/freight-pricing.engine.ts:98 | each day of the deadline moves the delivery by twenty-four hours |
| Pricing.TotalPermuted | apps/api/src/modules/freight-simulations/pricing/freight-pricing.engine.ts:84-90 | the price is the same for every order of the charges |
| Pricing.RoundingBound | apps/api/src/modules/freight-simulations/pricing/freight-pricing.engine.ts:59-103 | distance from the unrounded tariff: one cent, half a cent a charge, and a cent times the subtotal-based percentages |
| Pricing.TotalMonotone | apps/api/src/modules/freight-simulations/pricing/freight-pricing.engine.ts:60-91 | heavier, larger or more packages never cost less, under any surcharges and with at most one discount of at most 100 percent |
| Discounts.DiscountsExact | apps/api/src/modules/freight-simulations/pricing/freight-pricing.engine.ts:60-91 | for every list of charges: over all requests the service receives, a larger consignment never costs less exactly when on no added cent the discounts round up by more than one cent beyond the surcharges |
| Discounts.DiscountsCheckable | apps/api/src/modules/freight-simulations/pricing/freight-pricing.engine.ts:129-136 | that condition is finite: the first million cents decide |
| Discounts.PacedMonotone | apps/api/src/modules/freight-simulations/pricing/freight-pricing.engine.ts:60-91 | under that condition the price is monotone for every request, received or not |
| Discounts.LostPace | apps/api/src/modules/freight-simulations/pricing/freight-pricing.engine.ts:129-136 | a cent on which it fails gives two boxes of which the heavier is the cheaper |
| Discounts.SingleDiscountExact | apps/api/src/modules/freight-simulations/pricing/freight-pricing.engine.ts:129-136 | a single discount keeps the price monotone exactly when it is at most 100 percent |
| Discounts.TwoTenPercentUnsafe | apps/api/src/modules/freight-simulations/pricing/freight-pricing.engine.ts:129-136 | the failing case for ordinary discounts: two of 10 percent round up on the same added cent |
| Discounts.ThirtyAndTwentySafe | apps/api/src/modules/freight-simulations/pricing/freight-pricing.engine.ts:129-136 | discounts of 30 and 20 percent together are safe |
| Discounts.LargeDiscountBesideSurchargeSafe | apps/api/src/modules/freight-simulations/pricing/freight-pricing.engine.ts:129-136 | a discount of 150 percent is safe beside an addition of 50 percent |
| Pricing.TotalAtLeastMinimum | apps/api/src/modules/freight-simulations/pricing/freight-pricing.engine.ts:76-82 | the price is never below the rounded service minimum, without discounts |
| RateRanges.ValidateRanges | apps/api/src/modules/logistics-admin/logistics-admin.service.ts:183-193 | sorting and checking neighbours accepts a list exactly when all its ranges are well formed and pairwise disjoint as closed intervals, in any order; which of the two errors otherwise |
| RateRanges.NeighboursSuffice | apps/api/src/modules/logistics-admin/logistics-admin.service.ts:188-192 | on the sorted list the neighbour check separates every pair |
| RateRanges.LookupIgnoresOrder | apps/api/src/modules/freight-simulations/freight-simulations.service.ts:226 | in an accepted table the priority-order lookup finds the same range as any other order, or none in all |
| RateRanges.OrderMattersExact | apps/api/src/modules/freight-simulations/freight-simulations.service.ts:226 | in any list, the reading order matters for a weight exactly when two ranges contain it |
| RateRanges.RefusalMeans | apps/api/src/modules/logistics-admin/logistics-admin.service.ts:183-193 | a range is refused exactly when it ends no later than it starts, has a negative price or no deadline; two good ones overlap exactly when they share a weight |
| RateRanges.BoundsBelong | apps/api/src/modules/freight-simulations/freight-simulations.service.ts:226 | in an accepted list exactly the weights from one bound of a range to the other, both included, find it |
| RateRanges.LookupPrefers | apps/api/src/modules/freight-simulations/freight-simulations.service.ts:193-226 | of the ranges holding the weight, the one found has the smallest priority number, and among those the smallest lower bound |
| RateTables.HistoryPreserved | apps/api/src/modules/logistics-admin/logistics-admin.service.ts:33-85 | in every run each stored option's table still has the version, ranges and charges it was priced with, contains its weight in its range, and reprices it to the same total |
| RateTables.EmptyStoreSound | apps/api/src/modules/logistics-admin/logistics-admin.service.ts:33-48 | the runs start there: a tenant without tables |
| RateTables.TableFrozen | apps/api/src/modules/logistics-admin/logistics-admin.service.ts:53-54 | between any two moments of a run the table behind an option is the same |
| RateTables.OfferStands | apps/api/src/modules/freight-simulations/freight-simulations.service.ts:203-244 | an option is explained by the table it was priced with |
| RateTables.ChainDescends | apps/api/src/modules/logistics-admin/logistics-admin.service.ts:41 | following previous versions strictly lowers the version, so chains are finite |
| RateTables.NewVersionExact | apps/api/src/modules/logistics-admin/logistics-admin.service.ts:72-76 | versioning a table succeeds exactly when its stored ranges would be accepted again, its carrier is active and its coverages are still the service's, and which error otherwise; the copy has the same numbers, a higher version and is inactive |
| RateTables.CoverageCheckExact | apps/api/src/modules/logistics-admin/logistics-admin.service.ts:38-40 | counting the coverages found accepts a list exactly when they all belong to the service and none is repeated |
| RateTables.GramBoundsAcceptedAgain | apps/api/src/modules/logistics-admin/logistics-admin.service.ts:183-193 | ranges accepted with bounds in whole grams are accepted again as stored |
| RateTables.RoundingBlocksVersion | apps/api/src/modules/logistics-admin/logistics-admin.service.ts:72-76 | the failing case: bounds finer than a gram are accepted, touch once stored, and block every version |
| RateTables.MovedCoverageBlocksVersion | apps/api/src/modules/logistics-admin/logistics-admin.service.ts:161-169 | the other failing case: a coverage moved to another service blocks the version |
| RateTables.StoredLookup | apps/api/src/modules/freight-simulations/freight-simulations.service.ts:226 | in a stored table the reading order matters for a weight exactly where one range ends and another begins |
| RateTables.RateTableService.CreateRateTable | apps/api/src/modules/logistics-admin/logistics-admin.service.ts:33-48 | checks in order and the table inserted |
| RateTables.RateTableService.UpdateRateTable | apps/api/src/modules/logistics-admin/logistics-admin.service.ts:50-70 | refused once used; otherwise replaces the contents and keeps version and ancestor |
| RateTables.RateTableService.CreateRateTableVersion | apps/api/src/modules/logistics-admin/logistics-admin.service.ts:72-76 | a version is a creation from the stored contents, inactive, with the table as its ancestor |
| RateTables.MaxVersion | apps/api/src/modules/logistics-admin/logistics-admin.service.ts:41 | the highest version of the service's tables: none is higher and one has it, or there is none |
| RateTables.Current | apps/api/src/modules/freight-simulations/freight-simulations.service.ts:185-196 | the table a simulation takes is in force at the date and has the highest version that is |
| RateTables.RateTableService.UpdateRateTableStatus | apps/api/src/modules/logistics-admin/logistics-admin.service.ts:78-85 | an empty table cannot be activated |
| RateTables.RateTableService.DoUpdateCoverage | apps/api/src/modules/logistics-admin/logistics-admin.service.ts:161-169 | a coverage may be moved to any existing service |
| RateTables.RateTableService.TryService | apps/api/src/modules/freight-simulations/freight-simulations.service.ts:207-243 | one turn of the eligibility loop: weight limits, table, range and price |
| RateTables.RateTableService.CreateSimulation | apps/api/src/modules/freight-simulations/freight-simulations.service.ts:201-359 | the eligibility loop: which covered services make an option, from which table and range, at which price, and when a badly sized postal code fails the request |
| RateOffers.OfferMeans | apps/api/src/modules/freight-simulations/freight-simulations.service.ts:182-243 | an option comes from a table that is active, of that service, valid on the ship date, with the highest version of those; its range is one of the table holding the chargeable weight, and the weight is within the limits of the service |
| RateOffers.NoOfferMeans | apps/api/src/modules/freight-simulations/freight-simulations.service.ts:209-230 | a covered service makes no option exactly when the weight is out of its limits, no table of its is active and valid, or the newest that is has no range for the weight |
| RateOffers.OfferPrice | apps/api/src/modules/freight-simulations/freight-simulations.service.ts:232-241 | the price of an option is that of its range, the active charges of its table and the service of the simulation |
| RateOffers.ChargesPriced | apps/api/src/modules/freight-simulations/freight-simulations.service.ts:192 | exactly the active charges are priced, in order |
| RateOffers.RulesAreTheServices | apps/api/src/modules/freight-simulations/freight-simulations.service.ts:184 | exactly the coverages of the service decide |
| RateOffers.OptionsMean | apps/api/src/modules/freight-simulations/freight-simulations.service.ts:203-244 | the options of a request are exactly the offers of the listed services that cover the route |
| RateOffers.RejectionMeans | apps/api/src/modules/freight-simulations/freight-simulations.service.ts:204 | a request fails exactly when some listed service cannot tell whether it covers the route |
| RateOffers.DeactivatedNeverPrices | apps/api/src/modules/freight-simulations/freight-simulations.service.ts:187 | in every run that neither turns an inactive table on nor rewrites it, no new option points to it |
| RateOffers.NewVersionWaits | apps/api/src/modules/logistics-admin/logistics-admin.service.ts:72-76 | after a new version is made the offer of every service is what it was before |
| RateOffers.CreatedMeans | apps/api/src/modules/logistics-admin/logistics-admin.service.ts:33-48 | the exact condition for a table to be created, with the service's own distinct coverages spelled out, and what is inserted |
| RateOffers.UpdatedMeans | apps/api/src/modules/logistics-admin/logistics-admin.service.ts:50-70 | the exact condition for a table to be rewritten; version, ancestor and every other table stay |
| RateOffers.StoredMeans | apps/api/src/modules/logistics-admin/logistics-admin.service.ts:43 | stored ranges and charges are the submitted ones to the precision of their columns, with range ids of their own |
| RateOffers.StatusMeans | apps/api/src/modules/logistics-admin/logistics-admin.service.ts:78-85 | a status request writes one table's status and nothing else, and is refused exactly for turning on a table without ranges |
| RateOffers.ServiceChangeMeans | apps/api/src/modules/freight-simulations/freight-simulations.service.ts:174-181 | a service is offered exactly while it and its carrier are active, and a change of one leaves the offers of the others alone |
| RateOffers.AddCoverageMeans | apps/api/src/modules/logistics-admin/logistics-admin.service.ts:153-159 | a coverage adds its rule behind those of its own service and to no other |
| PostalCoverage.TextOrderIsNumeric | apps/api/src/modules/freight-simulations/freight-simulations.service.ts:662-666 | on digit strings of equal length text order is numeric order |
| PostalCoverage.RuleTestsAgree | apps/api/src/modules/freight-simulations/freight-simulations.service.ts:652-672 | a simulation throws exactly on badly sized codes or bounds, and otherwise tests what the coverage test tests, plus the states |
| PostalCoverage.EligibleIsCovered | apps/api/src/modules/logistics-admin/logistics-admin.service.ts:171-181 | every route a simulation serves is reported covered |
| PostalCoverage.EligibleExact | apps/api/src/modules/freight-simulations/freight-simulations.service.ts:652-672 | for any list of rules: the first active rule that serves the route or is badly sized decides whether the simulation serves it or fails |
| PostalCoverage.CoveredIsEligible | apps/api/src/modules/freight-simulations/freight-simulations.service.ts:652-660 | when every active rule is well sized, eligibility is exactly a tested rule whose states match |
| PostalCoverage.ShortBoundParts | apps/api/src/modules/freight-simulations/freight-simulations.service.ts:668-672 | a bound of another length is covered by the test and makes the simulation fail |
| PostalCoverage.ServesMeans | apps/api/src/modules/freight-simulations/freight-simulations.service.ts:652-672 | a rule serves a route exactly when both postal codes lie between its bounds as numbers, an empty bound being none, and both states match |
| PostalCoverage.ActiveRulesAppend | apps/api/src/modules/freight-simulations/freight-simulations.service.ts:184 | inactive rules are skipped and the others keep their order |
| PostalCoverage.TestCoverage | apps/api/src/modules/logistics-admin/logistics-admin.service.ts:171-178 | covered is whether some active rule matches; the rules shown are exactly the matching ones of active carriers |
| RefreshTokens.FamiliesSafe | apps/api/src/modules/auth/auth.repository.ts:67-111 | in every run each family has at most one live token and one user, and no token is exchanged twice |
| RefreshTokens.EmptyStateSafe | apps/api/src/modules/auth/auth.repository.ts:67-111 | the runs start there: no tokens |
| RefreshTokens.RefreshGrantedExactly | apps/api/src/modules/auth/auth.service.ts:736-756 | a refresh is granted exactly for a known, live, unexpired token of an active user and tenant, and the token handed out is live in the same family |
| RefreshTokens.ReplayKillsFamily | apps/api/src/modules/auth/auth.service.ts:736-756 | after a spent or revoked token is presented, every later refresh with any token of its family is refused |
| RefreshTokens.DeadForever | apps/api/src/modules/auth/auth.repository.ts:88-111 | a family with no live token never regains one |
| RefreshTokens.RotateKeeps | apps/api/src/modules/auth/auth.repository.ts:88-96 | rotating a live token keeps the family's only live token its newest |
| RefreshTokens.SessionService.DoRefresh | apps/api/src/modules/auth/auth.service.ts:253-256 | when a refresh is granted, when refused, and when it kills the family |
| RefreshTokens.SessionService.CreateRefreshToken | apps/api/src/modules/users/users.service.ts:245-259 | a session outside rotation gets a secret and a family that no stored token has, is the family's one live token, and leaves the others as they were |
| RefreshTokens.SessionService.RotateRefreshToken | apps/api/src/modules/auth/auth.repository.ts:67-97 | rotating a live token makes its successor, with a secret no token had and the same user, the family's one live token, and touches no other token |
| RefreshTokens.SessionService.RevokeRefreshToken | apps/api/src/modules/auth/auth.repository.ts:99-104 | revoking a live token leaves its family without one; no other token changes |
| RefreshTokens.SessionService.DoRevokeSession | apps/api/src/modules/auth/auth.service.ts:454-458 | the session with that id is revoked when it is the user's own and in the tenant |
| RefreshTokens.SessionService.DoRevokeOthers | apps/api/src/modules/auth/auth.service.ts:460-468 | every session of the user in the tenant but the presented one is revoked, and nothing else changes |
| RefreshTokens.SessionService.DoRevokeAll | apps/api/src/modules/users/users.service.ts:227-232 | every session of the user in the tenant is revoked |
| RefreshTokens.SessionService.DoResetPassword | apps/api/src/modules/auth/auth.service.ts:344-348 | a password reset revokes every session of the user |
| RefreshTokens.SessionService.UpdateMany | apps/api/src/modules/auth/auth.repository.ts:106-111 | the selected tokens are revoked and no other is touched |
| RefreshTokens.SessionService.DoLogout | apps/api/src/modules/auth/auth.service.ts:258-264 | logout revokes the presented live token and nothing else |
| RefreshTokens.SessionService.DoLogin | apps/api/src/modules/auth/auth.service.ts:650-687 | an active user of an active tenant gets a token in a fresh family |
| Sessions.RevokeAllMeans | apps/api/src/modules/users/users.service.ts:227-232 | ending all sessions revokes exactly the tokens with that user and that tenant; every other token is unchanged |
| Sessions.RevokeOthersMeans | apps/api/src/modules/auth/auth.service.ts:460-468 | ending the other sessions revokes exactly the user's tokens in the tenant but the presented one |
| Sessions.RevokeSessionMeans | apps/api/src/modules/auth/auth.service.ts:454-458 | ending one session revokes it exactly when it is the user's own and in the tenant, and no other |
| Sessions.ResetPasswordMeans | apps/api/src/modules/auth/auth.service.ts:344-348 | a password reset revokes exactly the tokens of the user, in every tenant |
| Sessions.LogoutMeans | apps/api/src/modules/auth/auth.service.ts:258-264 | a logout revokes exactly the presented token |
| Sessions.ReplayMeans | apps/api/src/modules/auth/auth.repository.ts:106-111 | presenting a spent token revokes exactly the tokens of its family |
| Sessions.RefusalMeans | apps/api/src/modules/auth/auth.service.ts:751-754 | an unknown or expired token, or one of a user who is not active, is refused and nothing changes |
| Sessions.GrantMeans | apps/api/src/modules/auth/auth.repository.ts:67-97 | a granted refresh spends the presented token and adds one with its family and user, the user's tenant and a new lifetime; nothing else changes |
| Sessions.LoginMeans | apps/api/src/modules/auth/auth.service.ts:650-687 | a login is granted exactly to active users of active tenants, and the token added |
| Sessions.LifetimeMeans | apps/api/src/modules/auth/auth.service.ts:751 | a token from a login can be refreshed after a wait exactly when the wait is shorter than its lifetime |
| Sessions.BlockedUser | apps/api/src/modules/auth/auth.service.ts:751 | no token of a user who is blocked or has no tenant can be refreshed, and the tokens of others can exactly when they could before |
| Sessions.OthersStaySignedIn | apps/api/src/modules/auth/auth.service.ts:454-468 | whatever sessions one user ends, every other user's token can be refreshed exactly when it could before |
| Tracking.LogExplainsRecord | apps/api/src/modules/logistics-admin/logistics-admin.service.ts:119-131 | in every run the status is the last one logged, the log is a path of the graph, the delivery time is that of the last delivery and is set exactly when DELIVERED, keys are distinct and the required stops were made |
| Tracking.DeliveredItinerary | apps/api/src/modules/logistics-admin/logistics-admin.service.ts:199-211 | a delivered shipment went through pickup scheduling, pickup, transit and out-for-delivery, in that order |
| Tracking.ItinerarySuffices | apps/api/src/modules/logistics-admin/logistics-admin.service.ts:199-211 | those required stops, and no others, do lead to each status |
| Tracking.TerminalAbsorbs | apps/api/src/modules/logistics-admin/logistics-admin.service.ts:208-215 | delivered, returned and canceled are absorbing |
| Tracking.DeliveryDistance | apps/api/src/modules/logistics-admin/logistics-admin.service.ts:199-215 | from any shipment, some run delivers it if and only if it is not canceled, returning or returned; no run does so in fewer reports than its route has stops, and reporting the route does |
| Tracking.NewShipmentSound | apps/api/src/modules/freight-simulations/freight-simulations.service.ts:412-430 | a shipment as the service creates it agrees with its empty log |
| Tracking.ShipmentRecord.CreateTrackingEvent | apps/api/src/modules/logistics-admin/logistics-admin.service.ts:119-136 | refusals, the event appended, the status and delivery time written |
| Tracking.RecordExact | apps/api/prisma/schema.prisma:850 | an event is recorded exactly when its status may follow and no logged event has its trimmed key, with the event appended and the delivery time; and when it is refused as a duplicate |
| Tracking.Predecessors | apps/api/src/modules/logistics-admin/logistics-admin.service.ts:199-215 | the graph read backwards: the statuses from which each one can be reported |
| Users.StepExact | apps/api/src/modules/users/users.service.ts:174-225 | a step keeps an active administrator in every tenant exactly when it is not an OAuth completion of a tenant's last one |
| Users.RunExact | apps/api/src/modules/users/users.service.ts:174-225 | a run keeps an active administrator in every tenant at every moment exactly when none of its completions takes a tenant's last one |
| Users.AlwaysAdministered | apps/api/src/modules/users/users.service.ts:266-273 | in every run whose completions find their user INCOMPLETE every tenant always has an active administrator |
| Users.StaleCompletionOrphansTenant | apps/api/src/modules/auth/auth.service.ts:192-221 | the failing case: a second completion token used after its user became the only administrator |
| Users.UpdateGuardExact | apps/api/src/modules/users/users.service.ts:266-273 | a permitted change is refused when, and only when, it would leave the tenant without an active administrator |
| Users.CountAfterUpdate | apps/api/src/modules/users/users.service.ts:271-272 | the count the guard reads, before and after one user changes |
| Users.UsersService.DoUpdate | apps/api/src/modules/users/users.service.ts:174-188 | checks in order, the user written, and whether the user's sessions are revoked |
| Users.UsersService.LastAdminSafe | apps/api/src/modules/users/users.service.ts:266-273 | refuses exactly the changes that take an active administrator away while there is at most one |
| Users.UsersService.DoApprove | apps/api/src/modules/users/users.service.ts:204-215 | only pending or invited users become active, with the role given |
| Users.UsersService.DoRegisterTenant | apps/api/src/modules/auth/auth.service.ts:60-98 | a new address founds a tenant with itself as active administrator |
| Users.UsersService.DoCreate | apps/api/src/modules/users/users.service.ts:54-73 | only administrators create administrators; active with a password, invited without |
| Users.UsersService.DoAcceptInvite | apps/api/src/modules/users/users.service.ts:128-154 | a pending unexpired invitation makes one active user with its role |
| Users.UsersService.DoCompleteOAuth | apps/api/src/modules/auth/auth.service.ts:192-209 | the completion as coded, without a look at the user's status |
| UserRequests.RegisterMeans | apps/api/src/modules/auth/auth.service.ts:60-98 | a registration is accepted exactly for an address no user of any tenant has, and the tenant and administrator it adds |
| UserRequests.CreateMeans | apps/api/src/modules/users/users.service.ts:54-87 | a creation is forbidden exactly for an administrator by someone who is not one, conflicts exactly with an address of the same tenant, and the user it adds: active with a password, invited without |
| UserRequests.InviteMeans | apps/api/src/modules/users/users.service.ts:89-112 | an invitation is refused exactly for an address of a user of the tenant who is not deleted; it is open until it expires, and every other invitation stays |
| UserRequests.AcceptMeans | apps/api/src/modules/users/users.service.ts:128-158 | accepting an open, unexpired invitation makes one active user with its tenant, address and role, and it cannot be accepted again |
| UserRequests.UpdateMeans | apps/api/src/modules/users/users.service.ts:174-189 | an update writes the role and status it names on one user, and nothing else |
| UserRequests.UpdateForbidden | apps/api/src/modules/users/users.service.ts:266-273 | an update is forbidden exactly when it makes an administrator without being one, or takes the tenant's only active administrator away |
| UserRequests.ApproveMeans | apps/api/src/modules/users/users.service.ts:204-215 | exactly pending and invited users of the tenant are approved, with the role given |
| UserRequests.OAuthMeans | apps/api/src/modules/auth/auth.service.ts:192-209 | when an OAuth sign-up and its completion are accepted, and what they write; a completion token works once |
| UserRequests.AlwaysUnique | apps/api/prisma/schema.prisma:317-380 | in every run no address occurs twice in a tenant and no two invitations to one address are open in it |
| LoginAttempts.QueryAnswersLog | apps/api/src/modules/auth/auth-login-attempt.service.ts:92-104 | an identifier is locked exactly when the windows read off the log say so |
| LoginAttempts.FailureAnswersLog | apps/api/src/modules/auth/auth-login-attempt.service.ts:75-90 | a failed attempt reports exactly the lock that then holds |
| LoginAttempts.OpenerMeans | apps/api/src/modules/auth/auth-login-attempt.service.ts:78-84 | a window opens with a failure no earlier window covers, no clear follows it, and every later failure falls inside it |
| LoginAttempts.NoOpenerMeans | apps/api/src/modules/auth/auth-login-attempt.service.ts:56-64 | no window means every failure has been cleared |
| LoginAttempts.LocksIndependent | apps/api/src/modules/auth/auth-login-attempt.service.ts:99-102 | a lock depends on its own identifier's failures and clears alone: deleting expired entries is unobservable |
| LoginAttempts.AuthLoginAttemptService.RecordLocalFailedAttempt | apps/api/src/modules/auth/auth-login-attempt.service.ts:75-90 | the entry written and the answer |
| LoginAttempts.AuthLoginAttemptService.Clear | apps/api/src/modules/auth/auth-login-attempt.service.ts:56-64 | after a clear the identifier is not locked at any time and its next failure counts as the first; no answer about another identifier changes |
| LoginAttempts.AuthLoginAttemptService.IsLocallyLocked | apps/api/src/modules/auth/auth-login-attempt.service.ts:92-105 | the answer, and the expired entry dropped |
| LoginAttempts.BurstLocks | apps/api/src/modules/auth/auth-login-attempt.service.ts:75-104 | failures within one window after a quiet log lock the identifier exactly from the configured number on, until the window that the first one opened ends |

## Where the code falls short of the plain statement

- The error report does not quote a cell for a carriage return alone
  (`Csv.ReportRoundTrip`). No row stored today holds one: both handlers write
  constant messages (`ErrorReports.HandlerReportReadable`).
- The handler writes customer and address separately; a failure in between is not
  repaired by replay, and the job can end COMPLETED without the address
  (`CustomerImport.CrashReplayExact`, `ImportTables.CompletedExact`).
- `cancel` removes only the first queue id, the worker does not look at the status
  before it writes PROCESSING, and an exception makes the queue try again, so a
  queued retry or an attempt left outlives a cancel (`ImportCancellation.CancelExact`).
  A cancel after the last check is overwritten (`ImportCancellation.LateCancelOverwritten`).
- `retry` does not wait for an attempt that has stored rows, whose counters then
  disagree with the emptied results (`ImportCounters.RetryExact`).
- Discounts that round up together, or one above 100 percent, can make the heavier
  consignment the cheaper one (`Discounts.DiscountsExact`).
- Ranges are checked before the columns round them, and coverages can change
  service, so a table may not be versionable (`RateTables.NewVersionExact`).
- OAuth completion does not check that the user is still INCOMPLETE
  (`Users.RunExact`).
- The coverage form accepts bounds of any length, which make a simulation fail
  (`PostalCoverage.EligibleExact`).

## Left out

- The header side of the parser (`normalizeHeaders`, `toParsedRow`, `findDuplicate`, formula detection, BOM) and XLSX files: they add only easy members or foreign code.
- TOTP generation and verification (HMAC).
- CustomerImport.CustomerImportHandler.ProcessRow: row ids are not modelled, so `createdResourceId` is not part of the result; a name's length is counted in scalar values.
- ImportProtocol.ImportJobRecord.Process: one worker serves the job at a time; two queue entries of one job run by two workers at once, a failure before the PROCESSING write (it only uses an attempt up) and the redelivery of a job whose worker process died are not part of the protocol. Times, messages and the summary of a job are dropped.
- Pricing.Calculate: the distance is not an input of the price.
- RateTables.RateTableService.CreateRateTable: names, notes and currency are not modelled, nor are numbers too large for their columns.
- RateTables.RateTableService.CreateSimulation: the candidate services are an input, in query order; customers, addresses, packages and the cheapest/fastest flags are not stored.
- RefreshTokens.SessionService.DoRefresh: access tokens, metadata hashes and audit records are not modelled.
- PostalCoverage.TestCoverage: numbers are unbounded, where JavaScript loses precision beyond 15 digits.
- Users.UsersService.DoUpdate: the revocation itself is the RevokeAll step of RefreshTokens; password rules and expiry of sessions are not modelled.
- Selecting an option and creating one shipment per simulation: easy members.
- Carrier imports, dashboards, listings, ViaCEP, geographic distance, e-mail, encryption, Redis, web front end.
