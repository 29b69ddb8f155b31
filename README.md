# Bank reconciliation and double-entry books

A Dafny model of the core of an Angolan small-business accounting
application (amounts in kwanza, chart of accounts after the Angolan general
accounting plan). The application reconciles a bank statement against the
company's ledger and keeps double-entry books around that reconciliation.
The model covers these parts:

- **Automatic reconciliation** (`Normalization`, `MatchState`, `Pairing`,
  `Grouping`, `Suggestions`, `Reconciliation`). The engine runs three passes
  over working copies of the bank table and the ledger table:
  - an exact pass: same day, amounts within 0.01, description similarity at
    or above a threshold;
  - an amount-and-date-window pass;
  - a grouping pass that matches one to three bank rows against one to three
    ledger rows whose sums agree.

  Every row left over becomes a discrepancy with one to three ranked
  correction suggestions. Applying a suggestion edits the ledger. The
  reconciler is a class whose methods flip the matched flags of the tables
  in place inside nested loops. Each method is proved against functions
  that specify the passes. The lemmas about those functions state:
  - no row is claimed twice;
  - the match ids run consecutively;
  - the sums of a match agree;
  - every row is either matched or reported, never both.
- **Books** (`Ledger`, `Depreciation`, `Accounting`):
  - keyword classification of descriptions into debit and credit accounts;
  - balanced-entry registration;
  - deduplicating conversion of imported tables into entries;
  - per-account balances and the net result;
  - yearly depreciation that never books a year twice.
- **Legacy comparison and ledger import** (`LegacyReconciliation`):
  - the keyed (date, description) comparison table;
  - the divergence report and the audit risk bands;
  - column mapping by alias and the deduplicating ledger import;
  - the month-end computation (`Calendar.MonthEnd`).
- **Recurring entries and the cash-flow forecast** (`Recurring`,
  `ForecastDates`, `CashForecast`):
  - occurrence dates by periodicity, with month stepping, day clamping and
    the Gregorian leap rule;
  - entry lists with id allocation;
  - the running balance of the forecast and its monthly summary.
- **Budget against actuals** (`Budget`): the nested year/month/side budget
  map, the comparison and the ranking of significant deviations.
- **Audit trail** (`Audit`): an append-only event log, entry diffing, the
  conjunctive search and the per-entry history.
- **Chart of accounts** (`ChartOfAccounts`): the account tree with path
  search, lookup, insertion, deletion, pre-order export and import.
- **The surrounding tools:**
  - table filters (`Filters`);
  - keyboard shortcuts (`Shortcuts`);
  - settings (`Settings`);
  - the step-by-step reconciliation assistant (`Wizard`).

Modelling choices:
- Money is `real`, kept exact, with the 0.01 tolerances of the source.
- Dates are `Calendar.Date(year, month, day)` with the Gregorian leap rule.
  Day differences are taken on day ordinals. Only the calendar date
  matters, since the source compares `.date()` values.
- Tables are sequences of rows; a row is identified by its position.
- The fuzzy description score (`fuzz.token_sort_ratio`) is a parameter
  function into 0..100.
- Saving a file, the clock and dialog answers are parameters.
- `Util`, `Sorting`, `Text` and most of `Calendar` are small
  library stand-ins: filtering, a stable insertion sort by key, string
  splitting and replacing, and date arithmetic.

Where the code does something its authors evidently did not intend, the
model keeps an as-written member that exhibits the behaviour, and the
rest of the model uses a corrected member (see "## Findings").

## Model

| member | source | states |
|---|---|---|
| Ledger.DoubleEntry | contabilidade.py:113-116 | an imported row gives two movements, the amount debited to one account and credited to the other, so the entry balances |
| Ledger.DebitAccount | contabilidade.py:154-173 | the debit account is always one of 45, 43, 64, 21, 63 or 62 |
| Ledger.CreditAccount | contabilidade.py:175-194 | the credit account is always one of 71, 37, 36, 32 or 34 |
| Ledger.FirstRule | contabilidade.py:159-170 | the rule chosen is the first whose terms the text mentions; no earlier rule matches; 6 (the default) when none does |
| Ledger.AccountsFollowFirstRule | contabilidade.py:154-194 | both classifiers take their account from the same rule, the first one the upper-cased description matches |
| Ledger.ClassificationIgnoresCase | contabilidade.py:156 | a description and its lower-cased form get the same debit and credit accounts (see also lines 177) |
| Ledger.PositionNumbersAreUnique | contabilidade.py:109 | when every entry is numbered by its position, no two entries share an id, whatever their prefixes (see also lines 136, 409) |
| Ledger.ImportedEntry | contabilidade.py:99-117 | the entry made from a row has the row's key (date, description, amount) |
| Ledger.ConvertRowsAppends | contabilidade.py:96-120 | a conversion only appends; every appended entry balances, comes from a row of the table and continues the position numbering |
| Ledger.ConvertRowsKeys | contabilidade.py:86-100 | afterwards every row's key is known and the known keys are exactly the keys of the entries (see also lines 120) |
| Ledger.ConvertRowsCount | contabilidade.py:96-120 | exactly one entry is appended per distinct row key not yet known |
| Ledger.ConvertKnownRows | contabilidade.py:99-101 | rows whose keys are already known add nothing |
| Ledger.ConvertedIsIdempotent | contabilidade.py:80-152 | converting the same tables a second time adds no entry |
| Ledger.AsWrittenAppends | contabilidade.py:109 | as written, a new row is numbered entries so far + new rows so far + 1 (see also lines 119) |
| Ledger.ConvertIdsAsWrittenCollide | contabilidade.py:109 | as written, three new rows on an empty ledger get B1, B3 and B5, and the second entry `aplicar_sugestao` then creates, numbered "B" + (length + 1), is B5 again (see also lines 119) |
| Ledger.PostShape | contabilidade.py:444-447 | posting keeps the accounts in first-seen order and appends an account not seen yet |
| Ledger.PostDistinct | contabilidade.py:445-446 | posting never lists an account twice |
| Ledger.PostSums | contabilidade.py:447 | posting adds the amount to that account's balance and to no other |
| Ledger.AccumulateLookup | contabilidade.py:440-447 | each account's balance is its debits minus its credits over the movements |
| Ledger.AccumulateSum | contabilidade.py:440-447 | the balances of any group of accounts add up to that group's net movement |
| Ledger.AccumulateDistinct | contabilidade.py:440-447 | each account appears once among the balances |
| Ledger.AccumulateAppend | contabilidade.py:442-447 | accumulating two runs of movements in turn equals accumulating them together |
| Ledger.BalancedEntriesNetToZero | contabilidade.py:401-405 | when every entry's debits equal its credits, all balances add up to zero (see also lines 440-447) |
| Ledger.NetResultFromMovements | contabilidade.py:607-613 | the net result is minus the net movement of the class 6 and class 7 accounts, whatever the order of the movements |
| Depreciation.DepreciateYearsEffect | contabilidade.py:1581-1629 | for one asset only the amortizations change; every unregistered year of the range gets one amortization and one balanced 66/19 entry; no year is booked twice or outside the range |
| Depreciation.DepreciateFromFrame | contabilidade.py:1556-1629 | only the assets from the current one on change, each only in its amortizations; after a run that completes each of them has every year booked |
| Depreciation.DepreciateSaturated | contabilidade.py:1586-1588 | assets whose years are all booked get nothing new |
| Depreciation.NothingToBook | contabilidade.py:1587-1588 | a range of years that are all registered books nothing |
| Depreciation.DepreciationIsIdempotent | contabilidade.py:1546-1634 | a second run with the same reference date, after one that completed, books nothing |
| Accounting.Books.constructor | contabilidade.py:14-23 | the books start with no entries, no assets and no imported tables |
| Accounting.Books.RegisterEntry | contabilidade.py:398-422 | refused exactly when debits and credits differ by more than 0.01; otherwise the entry is appended as M + (old length + 1) |
| Accounting.Books.RegisterAsset | contabilidade.py:362-396 | a code already used is refused with no change; otherwise the asset is appended and its purchase booked as 11 debited, 32 credited |
| Accounting.Books.ConvertImported | contabilidade.py:80-152 | with no table loaded nothing changes; otherwise the entries become the conversion of both tables, and the result says whether any entry was added |
| Accounting.Books.ConvertTable | contabilidade.py:96-120 | one table's loop gives the conversion of its rows and counts the new entries |
| Accounting.Books.BalancesAt | contabilidade.py:437-447 | the balances are the accumulated movements of the entries dated up to the reference date, each account once |
| Accounting.Books.CalculateDepreciation | contabilidade.py:1546-1634 | assets and entries become those of the depreciation run; an error exactly when the run stops on a useful life of 0; otherwise the records booked are returned |
| Accounting.Books.DepreciateAsset | contabilidade.py:1571-1629 | the year loop for one asset leaves the other assets alone and gives the one-asset run's result |
| Accounting.NetResult | contabilidade.py:607-613 | the net result is minus the sum of the class 6 and class 7 balances |
| Accounting.PostMovements | contabilidade.py:443-447 | the inner loop posts one entry's movements and keeps each account once |
| Normalization.Depunctuate | conciliacao_automatica.py:354-355 | every character that is neither a word character nor whitespace becomes a space; the rest are kept |
| Normalization.PunctuationBecomesSpace | conciliacao_automatica.py:354-355 | an en dash, curly quotes, the euro sign and the connector ties (U+203F, U+2040, U+2054) are not word characters and become spaces, while superscript digits are kept |
| Normalization.StripLeft | conciliacao_automatica.py:358 | the result is a suffix of the text that does not start with whitespace |
| Normalization.StripRight | conciliacao_automatica.py:358 | the result is a prefix of the text that does not end with whitespace |
| Normalization.Normalize | conciliacao_automatica.py:348-349 | anything that is not a string normalizes to "" |
| Normalization.CollapseShape | conciliacao_automatica.py:358 | after collapsing whitespace runs every character is allowed, spaces come singly, and the text starts with a space exactly when the input started with whitespace |
| Normalization.NormalizeShape | conciliacao_automatica.py:344-360 | the normalizer's output is lower-case, punctuation-free, single-spaced and trimmed |
| Normalization.NormalizeFixesNormalized | conciliacao_automatica.py:352-358 | a text already in normal form is left as it is |
| Normalization.NormalizeIdempotent | conciliacao_automatica.py:344-360 | normalizing a normalized text changes nothing |
| MatchState.Scoring | conciliacao_automatica.py:99-102 | the score of two descriptions is the similarity of their normalized texts, as at every call site (see also lines 305-308) |
| MatchState.Fresh | conciliacao_automatica.py:61-68 | the working copy has every row unmatched and without an id |
| MatchState.Select | conciliacao_automatica.py:92-93 | the rows satisfying the test, by increasing position, and all of them |
| MatchState.UnmatchedIff | conciliacao_automatica.py:92-93 | a row is listed as unmatched exactly when it is not marked (see also lines 133-134) |
| MatchState.Mark | conciliacao_automatica.py:106-109 | marking sets the flag and the id on the given rows only and keeps every transaction (see also lines 204-210) |
| MatchState.Claim | conciliacao_automatica.py:106-122 | a claim marks both sides' rows and appends its record |
| MatchState.StartWellFormed | conciliacao_automatica.py:56-68 | the fresh tables with no records satisfy the matcher's invariant |
| MatchState.NoRowClaimedTwice | conciliacao_automatica.py:92-93 | under the invariant no row belongs to two records (see also lines 106-109) |
| MatchState.MatchedIffListed | conciliacao_automatica.py:106-122 | under the invariant a row is marked exactly when some record lists it |
| MatchState.ClaimKeepsWellFormed | conciliacao_automatica.py:106-124 | claiming free rows under the next id keeps the invariant |
| MatchState.ClaimGrows | conciliacao_automatica.py:106-124 | a claim only adds records and never unmarks a row |
| MatchState.MarkOnlyAdds | conciliacao_automatica.py:106-109 | marking never unmarks a row |
| MatchState.MarkShrinksFree | conciliacao_automatica.py:204-206 | claiming at least one free bank row leaves fewer free bank rows |
| Pairing.FitsMeaning | conciliacao_automatica.py:95-104 | a pair fits exactly when the amounts differ by less than 0.01 and either the dates agree and the score reaches the threshold, or the dates are within the day tolerance (see also lines 136-140) |
| Pairing.FirstFit | conciliacao_automatica.py:93-125 | the inner loop finds the first free ledger row that fits, and nothing before it fits (see also lines 134-161) |
| Pairing.PairPassKeeps | conciliacao_automatica.py:86-161 | each pairing pass keeps the invariant, only adds records numbered on from the earlier ones, and never unmatches a row |
| Pairing.PairStepKeeps | conciliacao_automatica.py:93-125 | one bank row's turn keeps the invariant and adds at most one record |
| Pairing.PairRecordFits | conciliacao_automatica.py:104-122 | the record made for a fitting pair fits and claims two free rows |
| Pairing.PairStepSaturates | conciliacao_automatica.py:93-125 | after a bank row's turn, that row is matched or fits no free ledger row |
| Pairing.PairPassSaturates | conciliacao_automatica.py:92-125 | after a pass no free bank row still fits a free ledger row (see also lines 133-161) |
| Pairing.PairStep | conciliacao_automatica.py:93-125 | one bank row's turn keeps both tables' sizes |
| Pairing.PairPass | conciliacao_automatica.py:86-161 | a pairing pass keeps both tables' sizes |
| Grouping.CombosAreSubsequences | conciliacao_automatica.py:362-370 | the combinations of size k of a row list are exactly its order-preserving sub-lists of length k (both directions) |
| Grouping.Pairs | conciliacao_automatica.py:193-198 | every candidate pair couples a bank group and a ledger group from the two lists of combinations |
| Grouping.Candidates | conciliacao_automatica.py:176-198 | each candidate pair draws its bank rows from the free rows of the date and its ledger rows from the free rows within the day tolerance |
| Grouping.FirstAgreeing | conciliacao_automatica.py:193-202 | the pair chosen is the first candidate whose sums agree to within 0.01; none before it agrees, and None means no candidate agrees |
| Grouping.Search | conciliacao_automatica.py:189-202 | a group found is drawn from the date's free rows, indexes existing rows, and its bank and ledger sums agree |
| Grouping.UnmatchedDates | conciliacao_automatica.py:170-174 | the dates searched are exactly the dates of the free bank rows, each once |
| Grouping.GroupRecordFits | conciliacao_automatica.py:204-224 | the group record's amounts are the sums of its rows, and all of its rows are still free when they are claimed |
| Grouping.GroupOnDateKeeps | conciliacao_automatica.py:174-239 | matching one date's groups keeps every row in at most one match and only adds matches |
| Grouping.GroupOnDateOnePerSize | conciliacao_automatica.py:193-239 | one date adds at most one match per bank group size, in increasing size: each size has one turn, and a turn ends at its first match |
| Grouping.GroupOnDateExhausts | conciliacao_automatica.py:174-239 | a date's single pass over the sizes 1 to 3 claims a group of n bank rows exactly when, at the turn for size n, some group of n rows still free agrees with some group of free ledger rows; a size is not tried again |
| Grouping.NoCandidates | conciliacao_automatica.py:188-190 | with no free row on either side of a date, nothing is searched |
| Grouping.GroupPassKeeps | conciliacao_automatica.py:163-239 | the whole grouping pass keeps the one-match-per-row invariant and only adds matches |
| Grouping.GroupPassAddsGroups | conciliacao_automatica.py:193-239 | every match the grouping pass commits joins one to three bank rows, all on its date, with one to three ledger rows, each within the day tolerance of that date, and the two sums agree within 0.01 |
| GroupingAsWritten.TryLedger | conciliacao_automatica.py:196-224 | the innermost loop claims the first agreeing ledger group whether or not its rows are already matched; the tables keep their sizes |
| GroupingAsWritten.LedgerSizes | conciliacao_automatica.py:195-233 | the loop over ledger group sizes stops once the bank group is matched; the tables keep their sizes |
| GroupingAsWritten.BankGroups | conciliacao_automatica.py:194-239 | the loop over bank groups of one size, with the same stop test; the tables keep their sizes |
| GroupingAsWritten.BankSizes | conciliacao_automatica.py:193-239 | the loop over bank group sizes never stops early; the tables keep their sizes |
| GroupingAsWritten.DateAsWritten | conciliacao_automatica.py:176-239 | one date, with the candidate lists taken once before the loops; the tables keep their sizes |
| GroupingAsWritten.GroupingReclaimsRows | conciliacao_automatica.py:163-239 | with bank rows 100 and 50 and ledger rows 60, 40 and 90 on one date, bank row 0 and ledger row 0 end up in two matches, so the one-match-per-row invariant breaks |
| Suggestions.RankedShape | conciliacao_automatica.py:320-342 | one to three suggestions, the generic advice exactly when there is no candidate, otherwise candidates only |
| Suggestions.RankedKeepsBest | conciliacao_automatica.py:320-342 | the suggestions kept are sorted by the key (high similarity first, then amount difference, then days) and no candidate left out ranks before a kept one; up to three candidates are all kept |
| Suggestions.SuggestShape | conciliacao_automatica.py:267-342 | the correction suggestions are one to three, the generic advice exactly when no row of the other table qualifies |
| Suggestions.CandidatesQualify | conciliacao_automatica.py:273-318 | each candidate is a row of the other table meeting its kind's test (amount within 5%, same date, or similarity at least 70), with the difference measured from the unmatched row |
| Suggestions.QualifyingRowsAppear | conciliacao_automatica.py:273-318 | conversely, every row of the other table meeting a test yields a candidate of that kind |
| Suggestions.NoValueSimilarForNonPositive | conciliacao_automatica.py:273-276 | a zero or negative amount has no value-similar rows, because the 5% window is empty |
| Suggestions.DiscrepanciesCoverUnmatched | conciliacao_automatica.py:241-265 | every unmatched bank row and then every unmatched ledger row is reported once, in table order, on its side, with the suggestions from the other table; matched rows are not reported |
| Reconciliation.MatchedKeeps | conciliacao_automatica.py:70-77 | the three passes keep the tables consistent (records numbered on, each agreeing with the rows it claims, every claimed row carrying its record's id), keep the transactions and never unmatch a row |
| Reconciliation.PairPassesKeep | conciliacao_automatica.py:86-161 | the exact pass followed by the amount-and-date pass keep the tables consistent and only add matches |
| Reconciliation.ReconciledConsistent | conciliacao_automatica.py:40-84 | a run leaves consistent tables over exactly the input transactions |
| Reconciliation.AccountedOnce | conciliacao_automatica.py:65-68 | in consistent tables a row is unmatched exactly when no record claims it (see also lines 241-265) |
| Reconciliation.ReportsCarrySuggestions | conciliacao_automatica.py:241-265 | every discrepancy report carries one to three suggestions |
| Reconciliation.ReconciledAccountsForEveryRow | conciliacao_automatica.py:40-84 | a run accounts for every row exactly once: either some record claims it or it is reported, with one report per unmatched row |
| Reconciliation.ReconciledSuggestions | conciliacao_automatica.py:40-84 | every report of a run carries one to three suggestions (see also lines 241-265) |
| Reconciliation.Adjusted | conciliacao_automatica.py:589-594 | every positive debit and every positive credit of an entry becomes the unmatched row's amount; accounts and other amounts stay |
| Reconciliation.FirstReferred | conciliacao_automatica.py:586-588 | the entry adjusted is the first whose date and description are the suggestion's; None means no entry is referred to |
| Reconciliation.AppliedCreates | conciliacao_automatica.py:559-582 | applying a generic bank suggestion or a same-date or similar-description suggestion appends one balanced entry numbered "B" + (count + 1), with the row's date and description, origin BANCO, debit and credit accounts from the description (see also lines 604-628) |
| Reconciliation.AppliedRefusesLedgerGeneric | conciliacao_automatica.py:559 | a generic suggestion on a ledger row changes nothing and fails (see also lines 630) |
| Reconciliation.AppliedAdjusts | conciliacao_automatica.py:585-602 | a value-similar suggestion rewrites only the first entry it refers to and fails when no entry is referred to |
| Reconciliation.AdjustedDoubleEntry | conciliacao_automatica.py:589-594 | adjusting a balanced two-movement entry gives the same entry at the new amount, so it stays balanced |
| Reconciliation.AppliedKeepsNumbering | conciliacao_automatica.py:566 | applying a suggestion keeps the entries numbered by position (see also lines 610) |
| Reconciliation.MarkRows | conciliacao_automatica.py:204-210 | marking sets the matched flag and the match id on exactly the given rows |
| Reconciliation.FreshRows | conciliacao_automatica.py:60-68 | the working copy of a table has every row unmatched and without an id |
| Reconciliation.Collect | conciliacao_automatica.py:278-318 | each collecting loop yields one suggestion per row of the other table passing its test, in table order |
| Reconciliation.SuggestFor | conciliacao_automatica.py:267-342 | the loop version of the suggestion procedure computes the specified suggestion list, of one to three items |
| Reconciliation.FreeDates | conciliacao_automatica.py:174 | the loop computes the distinct dates of the free bank rows in order of first appearance |
| Reconciliation.Reconciler.constructor | conciliacao_automatica.py:10-20 | a new reconciler holds the books and no matches or discrepancies |
| Reconciliation.Reconciler.Reconcile | conciliacao_automatica.py:40-84 | a run resets both lists and leaves the matches and the discrepancies of the specified run, returning both |
| Reconciliation.Reconciler.RunOn | conciliacao_automatica.py:70-80 | the passes and the report on the working copies |
| Reconciliation.Reconciler.MatchAll | conciliacao_automatica.py:70-77 | the three passes in order compute the specified matching |
| Reconciliation.Reconciler.PairRows | conciliacao_automatica.py:86-161 | each free bank row claims the first free ledger row that fits the pass's rule |
| Reconciliation.Reconciler.NextRow | conciliacao_automatica.py:92-125 | one turn of the outer loop is one step of the specified pass |
| Reconciliation.Reconciler.PairRow | conciliacao_automatica.py:93-125 | the inner loop claims the first free ledger row that fits, or nothing |
| Reconciliation.Reconciler.GroupRows | conciliacao_automatica.py:163-239 | the grouping pass (as corrected, see the findings) computes the specified grouping |
| Reconciliation.Reconciler.GroupDate | conciliacao_automatica.py:176-239 | one date: one turn per bank group size from 1 to 3, each claiming the first agreeing pair of groups of rows still free, as specified by the single pass over the sizes |
| Reconciliation.Reconciler.FindGroup | conciliacao_automatica.py:193-202 | the nested loops over the groups find the specified first agreeing pair |
| Reconciliation.Reconciler.ClaimRows | conciliacao_automatica.py:204-224 | the record's rows are marked on both sides and the record is appended |
| Reconciliation.Reconciler.IdentifyDiscrepancies | conciliacao_automatica.py:241-265 | appends the specified reports: bank rows first, then ledger rows |
| Reconciliation.Reconciler.ReportRows | conciliacao_automatica.py:246-254 | one report per free row, with suggestions from the other table |
| Reconciliation.Reconciler.ApplySuggestion | conciliacao_automatica.py:534-636 | out-of-range indexes fail; on success the entries are those the specified application gives and the discrepancy is removed; otherwise nothing changes |
| Reconciliation.AdjustMovements | conciliacao_automatica.py:589-594 | the loop over an entry's movements computes the specified adjustment |
| Wizard.Steps | assistente_reconciliacao.py:10-51 | the step table has eight steps: a welcome, six numbered steps and a closing one |
| Wizard.StepsWithoutAction | assistente_reconciliacao.py:10-51 | steps 0, 3, 5 and 7 have no action, and each other step has a different action |
| Wizard.Progress | assistente_reconciliacao.py:122-124 | the progress bar reads current / (n - 1) * 100: between 0 and 100, 0 exactly on the first step and 100 exactly on the last |
| Wizard.ButtonsOn | assistente_reconciliacao.py:117-120 | Previous is enabled exactly when not on the first step, Next exactly when not on the last, and the action button exactly when the step has an action |
| Wizard.Assistant.constructor | assistente_reconciliacao.py:8-51 | a new assistant is on the first step; `__init__` does not set `passo_atual` (only `iniciar` does, at line 55, before it opens the window), so the model starts at step 0 because no step can run before `iniciar` |
| Wizard.Assistant.Start | assistente_reconciliacao.py:53-57 | starting goes back to the first step |
| Wizard.Assistant.Back | assistente_reconciliacao.py:126-130 | Previous moves one step back unless already on the first; the step stays in range |
| Wizard.Assistant.Forward | assistente_reconciliacao.py:132-136 | Next moves one step on unless already on the last; the step stays in range |
| Wizard.Assistant.Render | assistente_reconciliacao.py:110-124 | the view shows the step's title, the enabled buttons and the progress |
| Wizard.Assistant.ExecuteAction | assistente_reconciliacao.py:138-153 | the action run is the step's own, none when the step has none, and the step does not change |
| Wizard.WalkStaysInRange | assistente_reconciliacao.py:126-136 | any sequence of Previous and Next presses keeps the step in range |
| Wizard.ForwardReachesEnd | assistente_reconciliacao.py:132-136 | k Next presses from step c reach step c + k while that is in range |
| Settings.Defaults | configuracoes.py:31-50 | the defaults have the sections sistema, empresa and contabilidade with their documented keys |
| Settings.Loaded | configuracoes.py:52-59 | the loaded settings are the file's when it parses, otherwise the defaults |
| Settings.Get | configuracoes.py:76-89 | reading gives None exactly when the section or the key is missing, otherwise the stored value |
| Settings.Set | configuracoes.py:91-107 | writing creates the section when it is missing and adds no other section |
| Settings.GetAfterSet | configuracoes.py:91-107 | reading back a setting just written gives the value written |
| Settings.SetKeepsOthers | configuracoes.py:91-107 | writing one setting leaves every other section and key as it was |
| Settings.FormFieldsAreDefaults | configuracoes.py:144-262 | every field of the three form tabs is a setting of the defaults |
| Settings.DefaultsAreFormFields | configuracoes.py:144-262 | every default setting has a field in the form |
| Settings.Copied | configuracoes.py:263-281 | the copy-back succeeds exactly when every section written exists, and then keeps the sections |
| Settings.CopiedHoldsLastWrite | configuracoes.py:263-281 | after the copy-back each setting holds the last value the form wrote to it, or its old value |
| Settings.Manager.constructor | configuracoes.py:13-24 | the manager starts with the loaded settings |
| Settings.Manager.Lookup | configuracoes.py:76-89 | the lookup returns the specified reading |
| Settings.Manager.Define | configuracoes.py:91-107 | the setting is written in memory and the result is what saving reported |
| Settings.Manager.SaveForm | configuracoes.py:263-281 | writes every form field into its section; succeeds exactly when every section written exists, and otherwise keeps in memory the writes made before the first missing section |
| Settings.Applied | configuracoes.py:263-281 | the writes made before the first missing section; when no section is missing, the copied settings; the sections are kept |
| Settings.AppliedUpToMissing | configuracoes.py:263-281 | a copy-back that fails at a write keeps exactly the writes before it, which succeed on their own |
| Shortcuts.DefaultKeys | atalhos.py:38-55 | the defaults bind exactly nine functions |
| Shortcuts.DefaultValue | atalhos.py:38-55 | each default binding is one of the nine documented shortcuts |
| Shortcuts.DefaultsInjective | atalhos.py:38-55 | no two functions share a default shortcut |
| Shortcuts.Convert | atalhos.py:85-104 | the converted shortcut is bracketed by '<' and '>' |
| Shortcuts.ConvertMeaning | atalhos.py:85-104 | the conversion replaces "Ctrl" by "Control" and '+' by '-', lower-cases a one-character last segment and changes nothing else |
| Shortcuts.ConvertExample | atalhos.py:85-95 | "Ctrl+S" converts to "<Control-s>", the documented example |
| Shortcuts.Description | atalhos.py:218-228 | the description is the function's shortcut, or "" for an unknown function |
| Shortcuts.Overlay | atalhos.py:179-181 | the dialog's writes add the written functions to the table's keys |
| Shortcuts.OverlayHolds | atalhos.py:179-181 | after the writes, each written function holds its entry |
| Shortcuts.OverlayKeeps | atalhos.py:179-181 | a function the dialog does not list keeps its shortcut |
| Shortcuts.DialogKeepsInjective | atalhos.py:172-187 | a dialog that passed the duplicate test and lists every function leaves no shortcut bound twice |
| Shortcuts.Manager.constructor | atalhos.py:11-36 | the table is the saved one when the file could be read, else the defaults |
| Shortcuts.Manager.Update | atalhos.py:230-244 | an existing function is rebound and the result is what saving reported; an unknown one fails and changes nothing |
| Shortcuts.Manager.Add | atalhos.py:246-261 | a shortcut already bound is refused; otherwise the function is bound to it; the table stays free of duplicate shortcuts |
| Shortcuts.Manager.Remove | atalhos.py:263-276 | an existing function is removed; an unknown one fails; the table stays free of duplicate shortcuts |
| Shortcuts.Manager.SaveDialog | atalhos.py:172-187 | the entries are written exactly when they are pairwise distinct; otherwise nothing changes |
| Budget.KindOf | orcamento_realizado.py:95-96 | the type argument is accepted exactly when it is "receita" or "despesa" |
| Budget.Amount | orcamento_realizado.py:99-110 | an amount is stored exactly when its year, month and category nodes exist |
| Budget.Defined | orcamento_realizado.py:98-107 | a successful definition creates the missing year and month nodes and no others |
| Budget.DefinedReadsBack | orcamento_realizado.py:109-110 | after a definition the amount stored under year, month, side and category is the value given |
| Budget.DefinedKeepsOthers | orcamento_realizado.py:109-110 | every other amount is as it was |
| Budget.DefinedIdempotent | orcamento_realizado.py:98-110 | repeating a definition gives the same budgets |
| Budget.Get | orcamento_realizado.py:122-145 | the lookup gives nothing for a missing year, the whole year without a month, and the month node or nothing with one |
| Budget.Planner.constructor | orcamento_realizado.py:17-27 | the planner starts with the loaded budgets |
| Budget.Planner.Define | orcamento_realizado.py:67-120 | the definition succeeds exactly when year 2000-2100, month 1-12, a non-empty category, a non-negative value and a known type are given; on success the budgets are the specified definition, otherwise unchanged; non-negative budgets stay non-negative |
| Budget.DefinedNonNegative | orcamento_realizado.py:92-110 | defining a non-negative value keeps every amount non-negative |
| Budget.CategoryByPrefix | orcamento_realizado.py:242-276 | the category depends only on the first two characters of the account code |
| Budget.CategoryOfShort | orcamento_realizado.py:271-276 | a code shorter than two characters is not classified |
| Budget.CategoryOfResultAccounts | orcamento_realizado.py:247-276 | an account gets a category exactly when its code starts with 61-69 or 71-79, and then it is the name the table gives its first two characters; every other code is "Não classificado" |
| Budget.LineFor | orcamento_realizado.py:316-327 | a category's line reads 0 for a side that lacks it, its difference is realized minus budgeted, and its percentage is realized / budgeted * 100 when the budget is positive and 0 otherwise |
| Budget.TotalDifference | orcamento_realizado.py:354-358 | the total difference is the sum of the per-category differences |
| Budget.CompareKind | orcamento_realizado.py:310-330 | one side's loop gives one line per category of the budget or the realized map, each once, and totals equal to the sums of the lines |
| Budget.YearBudgetCounts | orcamento_realizado.py:122-145 | corrected: a yearly comparison counts every month's budget, so a category budgeted in some month has at least that much budgeted for the year (see also lines 310-314) |
| Budget.MonthBudgetUnchanged | orcamento_realizado.py:310-314 | for a month the corrected and the as-written budget sides agree |
| Budget.YearBudgetIgnoredAsWritten | orcamento_realizado.py:312-317 | as written, a yearly comparison sees no budget even for a category budgeted in January |
| Budget.Compare | orcamento_realizado.py:278-370 | the comparison covers both sides' categories once each, with totals equal to the sums of the lines |
| Budget.SignificantQualify | orcamento_realizado.py:391-420 | each reported deviation has a positive budget and a percentage above the limit, and it is "acima" exactly when more was realized than budgeted |
| Budget.SignificantComplete | orcamento_realizado.py:391-420 | every line with a positive budget and a deviation above the limit is reported |
| Budget.Deviations | orcamento_realizado.py:372-428 | the deviations are the revenue ones then the expense ones, stably sorted by decreasing percentage |
| Budget.SignificantLoop | orcamento_realizado.py:391-404 | one side's loop appends exactly that side's significant deviations |
| Budget.DeviationsOrdered | orcamento_realizado.py:422-425 | the reported list holds exactly the significant deviations of both sides, in decreasing order of percentage |
| Audit.FieldDiffsEmpty | auditoria.py:155-166 | a movement yields no field change exactly when it is unchanged |
| Audit.MovementDiffsEmpty | auditoria.py:153-166 | equally long movement lists yield no field change exactly when they agree |
| Audit.MovementDiffsSound | auditoria.py:153-166 | each reported field change names a movement, a field that differs and its values before and after |
| Audit.MovementDiffsComplete | auditoria.py:153-166 | every differing field of every movement is reported |
| Audit.NoChangesIff | auditoria.py:124-170 | with every field present on both sides, nothing is recorded exactly when the dd/mm/yyyy dates, the descriptions and the movements agree |
| Audit.DateForms | auditoria.py:130-136 | a date and the dd/mm/yyyy text of the same day compare as unchanged, and two dates compare as unchanged exactly when they are the same day |
| Audit.DiffFields | auditoria.py:156-166 | the loop over one movement's fields gives its specified changes, in field order |
| Audit.DiffMovements | auditoria.py:153-166 | the loop over equally long movement lists gives the specified changes, in index order |
| Audit.Diff | auditoria.py:121-166 | the diff records the date, the description and the movements as specified, and records whole lists when the counts differ |
| Audit.Log.constructor | auditoria.py:13-23 | the log starts with the loaded records |
| Audit.Log.RecordEvent | auditoria.py:74-105 | one record is appended, numbered after the last, with empty details when none are given; numbering in order is kept |
| Audit.Log.RecordEntryChange | auditoria.py:107-187 | nothing is appended when nothing changed; otherwise one "alteracao_lancamento" record with the entry id and the changes |
| Audit.Log.Search | auditoria.py:249-291 | without filters the whole log; otherwise the records passing every active filter, in log order |
| Audit.Log.History | auditoria.py:458-476 | the records about the entry, sorted by time with ties in log order |
| Sorting.SortByKeyStable | auditoria.py:476 | the sort is stable: it is the sort of the elements paired with their input positions, with the positions dropped, and there elements with equal keys keep their input order (see also orcamento_realizado.py line 423) |
| Audit.SearchWithoutFilters | auditoria.py:259-291 | a search whose filters are all empty returns the whole log |
| Audit.HistoryOrdered | auditoria.py:466-476 | the history holds exactly the log's records about the entry, in time order |
| Recurring.IndexOf | lancamentos_recorrentes.py:53-54 | the position found is the first entry with the id, or the length when none has it |
| Recurring.UnknownKeysIgnored | lancamentos_recorrentes.py:55-57 | changes to keys the entry does not have are ignored |
| Recurring.EditKeepsId | lancamentos_recorrentes.py:55-57 | an edit that sets no id keeps the entry's id |
| Recurring.LastDescriptionWins | lancamentos_recorrentes.py:55-57 | a description set by an edit holds afterwards unless a later change sets it again |
| Recurring.Align | lancamentos_recorrentes.py:121-144 | the alignment loop stops at the first date from the start of the period at which its condition fails; every earlier date satisfies it (the loop terminates, also for a 29 February) |
| Recurring.MonthStep | lancamentos_recorrentes.py:158-175 | a monthly, quarterly or half-yearly step adds 1, 3 or 6 months with the day kept, or clamped to the target month's last day under the Gregorian leap rule |
| Recurring.DayStep | lancamentos_recorrentes.py:152-157 | daily, weekly and fortnightly steps add 1, 7 and 15 days |
| Recurring.YearlyStep | lancamentos_recorrentes.py:176-178 | a yearly step fails exactly on a 29 February and otherwise adds one year |
| Recurring.AdvanceFails | lancamentos_recorrentes.py:152-178 | only a yearly step can fail |
| Recurring.AdvanceLater | lancamentos_recorrentes.py:152-178 | every successful step lands on a valid, later date |
| Recurring.ClampPersists | lancamentos_recorrentes.py:158-163 | a clamped day persists: monthly from 31 January 2023 gives 28 February and then 28 March |
| Recurring.GenerateDates | lancamentos_recorrentes.py:118-180 | the dates are strictly increasing and lie in [max(start, period start), period end], not past the end date when one is given; the first is the aligned date; the run stops only past the period or the end; it fails exactly when the start is a yearly 29 February and the first aligned date is not past the period end, and a successful yearly 29 February run is empty |
| Recurring.Repeat | lancamentos_recorrentes.py:146-180 | the generation loop from the aligned date emits the dates specified by the periodicity and stops only past the period or the end; it raises exactly when the start is a yearly 29 February and the aligned date is not past the period end |
| Recurring.Manager.constructor | lancamentos_recorrentes.py:8-20 | the manager starts with the loaded entries |
| Recurring.Manager.FreshId | lancamentos_recorrentes.py:66-72 | the new id is the least positive integer not already used |
| Recurring.Manager.Add | lancamentos_recorrentes.py:35-49 | exactly one active entry is appended under the fresh id; the other entries are unchanged; the result is what saving reported |
| Recurring.Manager.Edit | lancamentos_recorrentes.py:51-59 | the first entry with the id takes the changes to its existing keys; without one nothing changes and the result is false |
| Recurring.Manager.Remove | lancamentos_recorrentes.py:61-64 | keeps exactly the entries with another id, in order |
| Recurring.Manager.Process | lancamentos_recorrentes.py:74-116 | a successful result is the concatenation, entry by entry in list order, of the rows of each active entry that overlaps the period, one row per date its periodicity gives there, each carrying the entry's data and id; it fails exactly when some active entry that overlaps the period is annual from 29 February and its first aligned date is not past the period end, since the step to the next year raises and nothing catches it |
| Recurring.LeapStartFails | lancamentos_recorrentes.py:143-177 | an annual 29 February 2024 entry fails over 2024, and also over March 2024 to 2028 with an end date in June 2024, where the next 29 February is past the end date |
| Recurring.RowsFor | lancamentos_recorrentes.py:108-115 | one row per date, in the dates' order, each with that date and the entry's id |
| Recurring.DatesOfUnique | lancamentos_recorrentes.py:118-180 | the dates a successful generation returns for an entry and a period are determined by them: the aligned first date, each next step, and the stop past the period or the end date |
| Recurring.FirstAlignedUnique | lancamentos_recorrentes.py:121-144 | the alignment loop's stopping date is unique |
| Recurring.ExpandedUnique | lancamentos_recorrentes.py:74-116 | only one sequence of rows is the entry-by-entry concatenation for given entries and period, so a successful Process result is fully determined; with Process's failure condition, so is its outcome |
| Recurring.ExpandedProduced | lancamentos_recorrentes.py:74-116 | every row of the concatenation carries the data of an active entry that overlaps the period and a date inside both the entry's and the requested period |
| Recurring.ExpandedComplete | lancamentos_recorrentes.py:74-116 | every date the periodicity gives an active entry overlapping the period appears among the rows as a row of that entry |
| ForecastDates.DayRunMembers | fluxo_caixa_projetado.py:262-263 | the daily run holds exactly the dates between its first and last day, none skipped |
| ForecastDates.WeekRunMembers | fluxo_caixa_projetado.py:265-272 | the weekly run holds exactly the window's dates from its first date on that fall on the first date's weekday |
| ForecastDates.NthOrder | fluxo_caixa_projetado.py:274-332 | later month steps give later dates |
| ForecastDates.StepMonthsNoDrift | fluxo_caixa_projetado.py:283-302 | stepping from the previous date with the start's day lands on the closed form, so a clamp never shifts later dates |
| ForecastDates.StepRunMembers | fluxo_caixa_projetado.py:274-332 | the monthly or quarterly run holds exactly the closed-form steps inside the window |
| ForecastDates.InYearFallback | fluxo_caixa_projetado.py:336-353 | the yearly date keeps the start's month and day, except that 29 February becomes 28 February in common years |
| ForecastDates.YearRunMembers | fluxo_caixa_projetado.py:334-353 | the yearly run holds exactly one date per year of the range that falls inside the window |
| ForecastDates.OccurrencesInWindow | fluxo_caixa_projetado.py:249-355 | every occurrence lies in [max(start, period start), min(end, period end)] and the dates are strictly increasing |
| ForecastDates.DailyIsEveryDay | fluxo_caixa_projetado.py:262-263 | daily occurrences are every day of the window |
| ForecastDates.WeeklyKeepsWeekday | fluxo_caixa_projetado.py:265-272 | corrected: weekly occurrences are exactly the window's dates on the start's weekday |
| ForecastDates.SteppedAreNth | fluxo_caixa_projetado.py:274-332 | monthly and quarterly occurrences are exactly the closed-form steps of 1 or 3 months inside the window |
| ForecastDates.AnnualOncePerYear | fluxo_caixa_projetado.py:334-353 | annual occurrences are at most one per year, each the start's month and day in that year, inside the window |
| ForecastDates.OccurrenceDates | fluxo_caixa_projetado.py:249-355 | the loop computes the specified occurrences |
| ForecastDates.WeeklyDates | fluxo_caixa_projetado.py:269-272 | the weekly loop computes the specified weekly run |
| ForecastDates.SteppedDates | fluxo_caixa_projetado.py:274-332 | the monthly and quarterly loops compute the specified run |
| ForecastDates.AnnualDates | fluxo_caixa_projetado.py:338-353 | the annual loop computes the specified yearly run |
| ForecastDates.InYearAsComputed | fluxo_caixa_projetado.py:339-350 | the yearly date is the plain date when it exists, and otherwise 28 or 29 February as the leap rule says |
| ForecastDates.WeeklyAsWrittenOffWeekday | fluxo_caixa_projetado.py:265-272 | as written, an entry starting on Monday 1 January 2024 and forecast from Wednesday 3 January first occurs on that Wednesday; the corrected run gives Monday 8 January |
| CashForecast.NextId | fluxo_caixa_projetado.py:119-120 | corrected: the new id is positive and differs from every id in use |
| CashForecast.FirstWithId | fluxo_caixa_projetado.py:153-154 | the position found is the first entry with the id, or the length when none has it |
| CashForecast.RemoveFirstKeepsOthers | fluxo_caixa_projetado.py:153-158 | with distinct ids, removing the first entry with the id keeps exactly the entries with another id, in order |
| CashForecast.AddKeepsIdsDistinct | fluxo_caixa_projetado.py:119-132 | adding under the corrected id keeps the ids distinct |
| CashForecast.AsWrittenIdsCollide | fluxo_caixa_projetado.py:119-120 | as written, adding two entries, removing the first and adding a third gives two entries with id 2; the corrected id is 3 (see also lines 153-155) |
| CashForecast.AddAllEffect | fluxo_caixa_projetado.py:244-247 | booking occurrences adds no day, and a day's value grows by the amount once per occurrence on that day |
| CashForecast.IncludeKnownKind | fluxo_caixa_projetado.py:222-247 | including an entry of a known kind books its dates into the map its kind names and leaves the other map alone |
| CashForecast.IncludeBooksByKind | fluxo_caixa_projetado.py:244-247 | the value is booked only on days already in the forecast, under its kind, once per occurrence |
| CashForecast.IncludeKeepsDays | fluxo_caixa_projetado.py:244-247 | including an entry never adds a day to either map |
| CashForecast.ProjectKeepsDays | fluxo_caixa_projetado.py:222-247 | the whole projection never adds a day to either map |
| CashForecast.OutsideEntriesIgnored | fluxo_caixa_projetado.py:226-232 | entries starting after the window or ending before it contribute nothing |
| CashForecast.CashBalanceAppend | fluxo_caixa_projetado.py:596-600 | one more entry moves the cash balance by exactly its movements on class 4 accounts, debit minus credit |
| CashForecast.CurrentBalance | fluxo_caixa_projetado.py:586-602 | the loops compute the specified cash balance |
| CashForecast.ClosingIsSeedPlusFlow | fluxo_caixa_projetado.py:207-213 | the balance after the last day is the seed plus every day's revenue minus its expense |
| CashForecast.SummarizesMeans | fluxo_caixa_projetado.py:770-793 | the monthly summary has one key per month of the days, and each month's revenues and expenses are the sums of its days' values, with their difference as its balance |
| CashForecast.SummarizesStep | fluxo_caixa_projetado.py:778-791 | adding one day to its month's totals, opened at zero when new, keeps the summary exact |
| CashForecast.Forecast.constructor | fluxo_caixa_projetado.py:17-40 | the forecast starts with the loaded recurring entries and empty maps |
| CashForecast.Forecast.AddRecurring | fluxo_caixa_projetado.py:87-140 | an empty description, a non-positive value, an unknown kind or an unknown frequency is refused with nothing changed; otherwise the entry is appended under the corrected id, and distinct ids stay distinct |
| CashForecast.Forecast.RemoveRecurring | fluxo_caixa_projetado.py:142-163 | removes the first entry with the id and reports whether there was one |
| CashForecast.Forecast.Reset | fluxo_caixa_projetado.py:184-196 | the forecast holds every day of the window at zero |
| CashForecast.Forecast.IncludeRecurring | fluxo_caixa_projetado.py:222-247 | the maps become the specified projection |
| CashForecast.Forecast.RunningBalance | fluxo_caixa_projetado.py:207-213 | each day's balance is the previous one plus the day's revenue minus its expense, starting from the seed; no day is added |
| CashForecast.Forecast.Generate | fluxo_caixa_projetado.py:165-220 | the window is reset, the recurring entries booked, and each day's balance is the cash balance plus the net flow so far; on failure the balances stay at zero |
| CashForecast.Forecast.GroupByMonth | fluxo_caixa_projetado.py:770-793 | per month of the forecast, the sums of the daily revenues and expenses and their difference |
| CashForecast.AddDates | fluxo_caixa_projetado.py:244-247 | the inner loop computes the specified booking |
| Filters.AmountTextMeaning | filtros_avancados.py:197 | the amount text is the input without its dots, each comma read as a decimal point (see also lines 204) |
| Filters.AmountTextGrouped | filtros_avancados.py:197 | "1.234,56" reads as 1234.56 |
| Filters.AmountTextPointIsDropped | filtros_avancados.py:197 | "12.5" reads as 125: a point typed as a decimal separator is taken for a thousands dot |
| Filters.BuiltSkipsUnparsable | filtros_avancados.py:175-224 | the active filters are rebuilt from scratch; a bound is active exactly when its field is filled in and parses; the description flags count only with a description; sign, origin and status count unless "todos"/"todas" |
| Filters.BlankFormNoFilters | filtros_avancados.py:175-224 | the dialog as it opens activates no filter |
| Filters.FrameIsFilter | filtros_avancados.py:267-308 | the filter chain keeps exactly the rows every active filter accepts, in their original order |
| Filters.NoFiltersKeepAll | filtros_avancados.py:267-308 | with no filter active every row is kept |
| Filters.ZeroHasNoSign | filtros_avancados.py:285-289 | a zero amount passes neither the positive nor the negative filter |
| Filters.CaseSensitiveIsStricter | filtros_avancados.py:292-304 | a description accepted case-sensitively is accepted case-insensitively |
| Filters.ExactIsStricter | filtros_avancados.py:292-304 | a description accepted exactly is accepted as a substring |
| Filters.ReconciledIff | filtros_avancados.py:310-326 | a row is CONCILIADO exactly when the other table is loaded and holds a row of equal amount and date, and PENDENTE otherwise |
| Filters.ReconciledBothWays | filtros_avancados.py:310-326 | a reconciled bank row has a reconciled twin in the ledger |
| Filters.Labelled | filtros_avancados.py:238-249 | each row is shown with its origin and its status |
| Filters.TableSound | filtros_avancados.py:230-265 | corrected: every line shown passes every active filter, including the origin filter, and carries its row's status |
| Filters.TableComplete | filtros_avancados.py:230-265 | every row of a loaded table that passes every filter is shown |
| Filters.OriginIgnoredAsWritten | filtros_avancados.py:230-265 | as written, a table filtered to the bank side still lists a ledger row (see also lines 306) |
| Filters.AdvancedFilters.constructor | filtros_avancados.py:9-11 | no filter is active at first |
| Filters.AdvancedFilters.ApplyFilters | filtros_avancados.py:175-228 | the active filters are the ones built from the form, and the table is refilled under them |
| Filters.AdvancedFilters.ClearFilters | filtros_avancados.py:328-332 | no filter stays active |
| Filters.AdvancedFilters.FilterTable | filtros_avancados.py:230-265 | the bank rows then the ledger rows, each filtered, a row skipped when its status is filtered out |
| Filters.AdvancedFilters.ShowRows | filtros_avancados.py:237-249 | one table's loop shows the specified lines |
| LegacyReconciliation.LookupFound | reconciliacao.py:370 | a key has a sum exactly when it is among the dictionary's keys (see also lines 380) |
| LegacyReconciliation.AddToKeys | reconciliacao.py:370-373 | adding to a key keeps the insertion order of the keys, a new key going last, and keeps them distinct |
| LegacyReconciliation.AddToLookup | reconciliacao.py:370-373 | adding to a key changes that key's sum only, starting a new key at the amount |
| LegacyReconciliation.WithoutEffect | reconciliacao.py:396-397 | deleting a key removes it and changes nothing else |
| LegacyReconciliation.BankSumsMeaning | reconciliacao.py:366-373 | each (dd/mm/yyyy, description) key of the bank rows appears once, holding the sum of its rows' amounts, and no other key appears |
| LegacyReconciliation.BankOnly | reconciliacao.py:399-408 | each key left becomes a pending line with its sum as the bank value, 0 as the ledger value and its sum as the difference |
| LegacyReconciliation.LineFor | reconciliacao.py:376-393 | a ledger row's line has the bank sum of its key (0 when absent), the difference bank minus ledger, and CONCILIADO exactly when the difference is below 0.01 |
| LegacyReconciliation.Compare | reconciliacao.py:376-408 | the table has one line per ledger row plus one per bank key no ledger row used |
| LegacyReconciliation.CompareShape | reconciliacao.py:376-408 | the ledger lines come first, in ledger order, then the bank-only lines of the keys left |
| LegacyReconciliation.FirstUseSeesSum | reconciliacao.py:380 | the first ledger row with a key sees the whole bank sum of that key; a later row with the same key sees 0 (see also lines 395-397) |
| LegacyReconciliation.RemainingMeaning | reconciliacao.py:395-408 | a bank key is left for the bank-only lines exactly when no ledger row has it, with its full sum |
| LegacyReconciliation.FillComparison | reconciliacao.py:359-408 | the three loops compute the specified comparison table |
| LegacyReconciliation.SumByKey | reconciliacao.py:366-373 | the first loop computes the specified sums |
| LegacyReconciliation.CompareLedger | reconciliacao.py:376-397 | the second loop emits the ledger lines and deletes each used key |
| LegacyReconciliation.ListBankOnly | reconciliacao.py:399-408 | the third loop lists the keys left as bank-only lines |
| LegacyReconciliation.DivergentIffPending | reconciliacao.py:1821-1833 | a bank row is a divergence exactly when no ledger row has the same amount and date, which is exactly when the filter window shows it as pending |
| LegacyReconciliation.ReportDivergences | reconciliacao.py:1817-1833 | the report is refused unless both tables are loaded, and then lists the divergent bank rows in order |
| LegacyReconciliation.RiskBands | reconciliacao.py:817-822 | ALTO exactly above 10000, MÉDIO exactly in (5000, 10000], BAIXO exactly at or below 5000 |
| LegacyReconciliation.RiskMonotone | reconciliacao.py:817-822 | a larger amount never falls in a lower band, and every negative amount is BAIXO |
| LegacyReconciliation.AuditTableShape | reconciliacao.py:810-849 | the audit table lists the bank rows then the ledger rows, each pending, with its origin and the band of its amount |
| LegacyReconciliation.FillAudit | reconciliacao.py:810-849 | the two loops compute the specified audit table, shown only when both tables are loaded |
| LegacyReconciliation.AliasesDisjoint | reconciliacao.py:1968-1972 | no alias of one required column is another required column or one of its aliases |
| LegacyReconciliation.FirstPresent | reconciliacao.py:1974-1977 | the alias chosen is the first, in the listed order, that is a column; None when none is |
| LegacyReconciliation.Rename | reconciliacao.py:1976 | renaming replaces the column by the new name and changes no other column |
| LegacyReconciliation.RenameFirstEffect | reconciliacao.py:1973-1977 | renaming one missing column in adds it exactly when one of its aliases is present, and disturbs no other required column |
| LegacyReconciliation.RenameAllEffect | reconciliacao.py:1973-1977 | after the renames a required column is there exactly when it was, or was missing and had an alias |
| LegacyReconciliation.MissingDistinct | reconciliacao.py:1963-1964 | the missing list holds distinct required names that are not columns |
| LegacyReconciliation.MapColumnsIff | reconciliacao.py:1962-1983 | the mapping succeeds exactly when every required column is there or has an alias, and then all are there; otherwise it names the missing ones |
| LegacyReconciliation.MapColumnsByAlias | reconciliacao.py:1962-1983 | the loops compute the specified mapping |
| LegacyReconciliation.RenameFirstAlias | reconciliacao.py:1974-1977 | the inner loop renames the first alias present and stops |
| LegacyReconciliation.CleanAmountUnsigned | reconciliacao.py:2013-2017 | the cleaned amount text holds only digits and points, so no textual amount is read as negative |
| LegacyReconciliation.CleanAmountDropsSign | reconciliacao.py:2013-2017 | a debit written "-50,00" is read as 50 |
| LegacyReconciliation.DefaultsEffect | reconciliacao.py:2028-2034 | the origem and status columns are added only when absent, filled with LIVRO and PENDENTE, and every row and other cell stays |
| LegacyReconciliation.ImportKeepsBook | reconciliacao.py:1948-2058 | an import is refused exactly when a required column is missing and has no alias; a refused or all-duplicate import leaves the book unchanged; otherwise the book only grows at its end |
| LegacyReconciliation.ImportAppendsFresh | reconciliacao.py:2040-2056 | the rows appended are exactly the imported ones, in file order, whose (date, description, amount) key the book did not hold, and there is at least one |
| LegacyReconciliation.LedgerBook.constructor | reconciliacao.py:34-35 | no ledger is loaded at first |
| LegacyReconciliation.LedgerBook.Import | reconciliacao.py:1948-2058 | the import leaves the outcome and the book specified |
| LegacyReconciliation.ExistingKeys | reconciliacao.py:2042-2045 | the loop collects exactly the keys of the book's rows |
| Calendar.MonthEnd | reconciliacao.py:652-657 | the first day of the next month minus one day is the month's last day, December rolling the year |
| ChartOfAccounts.Find | plano_contas.py:404-408 | looking a code up in a dictionary gives its account when the code is a key, and None where Python raises KeyError |
| ChartOfAccounts.SearchShape | plano_contas.py:384-395 | any path the search returns starts with the parent code, ends with the code sought, has at least two codes, and each code below the parent is a key of the sub-accounts of the one before |
| ChartOfAccounts.SearchComplete | plano_contas.py:384-395 | the search finds a code exactly when it occurs below the parent |
| ChartOfAccounts.SearchClassesComplete | plano_contas.py:377-381 | the loop over the classes finds a code exactly when it is below some class |
| ChartOfAccounts.PathOfComplete | plano_contas.py:370-382 | a path is found exactly for the codes in the chart: a class is its own path |
| ChartOfAccounts.SearchClassesShape | plano_contas.py:377-395 | every path the class loop returns starts at a class and walks down to the code sought |
| ChartOfAccounts.PathRoundTrip | plano_contas.py:370-409 | the path found for a code leads to the account stored under that code |
| ChartOfAccounts.NodeAt | plano_contas.py:397-409 | the loop looks the first code up among the classes and each next one among the sub-accounts reached; None for an empty path or a missing code |
| ChartOfAccounts.UpdateAtWalk | plano_contas.py:283-296 | editing the account at a path leaves the path leading to the edited account (see also lines 358-364) |
| ChartOfAccounts.UpdateAtCodes | plano_contas.py:283-296 | the edit trades the codes below the old account for those below the new one, and no other code changes (see also lines 358-364) |
| ChartOfAccounts.UpdateAtWellFormed | plano_contas.py:283-296 | the edit keeps every dictionary free of repeated keys (see also lines 358-364) |
| ChartOfAccounts.AppendEffect | plano_contas.py:257-264 | a new key goes last and is found there (see also lines 290-296) |
| ChartOfAccounts.WithoutEffect | plano_contas.py:358-364 | deleting a key removes that entry and the codes below it, and nothing else |
| ChartOfAccounts.AddClassEffect | plano_contas.py:253-264 | a class is added exactly when its code is new and a name is given; the chart then gains exactly that code, an empty account under it |
| ChartOfAccounts.AddSubEffect | plano_contas.py:266-296 | the parent is not found exactly when its code is not in the chart; the code is refused as a duplicate exactly when it is already among the parent's sub-accounts; a sub-account is added exactly when the parent is found, the code is new among its siblings and a name is given. Then the chart gains exactly that code, an empty account under the parent, appended last to the parent's sub-accounts; the ancestors keep their names; every path not leading to the new account leads where it led before; otherwise the chart is unchanged |
| ChartOfAccounts.DeleteEffect | plano_contas.py:335-368 | deleting a code found in the chart removes the account at its path with the codes below it and no other code; that path and every path below it then lead nowhere; the ancestors keep their names; every other path off the deleted branch and not leading to an ancestor leads where it led before |
| ChartOfAccounts.ExportCodes | plano_contas.py:411-451 | every account is exported once: one row per account, carrying exactly the codes of the tree |
| ChartOfAccounts.ExportLevels | plano_contas.py:426-451 | classes are at level 1, no row is above the starting level, and each row is at most one level below the one before |
| ChartOfAccounts.AppendExport | plano_contas.py:440-451 | the recursion appends the rows of a dictionary, each account followed by its sub-accounts one level deeper |
| ChartOfAccounts.ParentCodeIff | plano_contas.py:488-491 | a code has a parent code exactly when it contains a '.' |
| ChartOfAccounts.ImportAsWritten | plano_contas.py:478-504 | the loop over the rows computes the as-written import |
| ChartOfAccounts.AttachRule | plano_contas.py:480-504 | a row below level 1 is attached only when its code has a '.' and its parent code is already in the plan; otherwise it is dropped |
| ChartOfAccounts.ImportDropsSubaccountsAsWritten | plano_contas.py:486-504 | as written, class 4 with account 43 exports to two rows and imports back as class 4 alone |
| ChartOfAccounts.ImportRowRules | plano_contas.py:480-504 | corrected: a level-1 row becomes a class; a row with a dotted code goes under the account its parent code leads to, and is skipped when that code is not in the plan yet, as in the source; an undotted sub-account row goes under the last account read at the level above, and is skipped when there is none |
| ChartOfAccounts.ImportAgreesAsWritten | plano_contas.py:480-504 | on a table whose rows are classes or have dotted codes, the corrected import builds the same plan as the source's loop |
| ChartOfAccounts.ImportFollowsParentCode | plano_contas.py:492-502 | the rows 1, 2 (classes) and 1.1 put 1.1 under class 1, not under the class read last |
| ChartOfAccounts.ImportSkipsStrayRow | plano_contas.py:480-504 | a row with no place is skipped and the rows after it are still read: class 2 after a stray level-3 row is kept |
| ChartOfAccounts.ExportImportRoundTrip | plano_contas.py:411-504 | corrected: importing the export of a well-formed chart whose codes occur once and whose dotted codes name their parents gives the chart back, in the same order |
| ChartOfAccounts.DefaultShapeRoundTrip | plano_contas.py:411-504 | the default chart's shape (class 4 over account 43) comes back from its export corrected, and is lost as written |
| ChartOfAccounts.ImportResultEffect | plano_contas.py:453-514 | an import happens exactly when the three columns are present and the replacement is confirmed, and the chart is then the one read from the rows; otherwise the chart is kept; importing the export of a well-formed chart whose codes occur once and whose dotted codes name their parents gives it back |
| ChartOfAccounts.Chart.constructor | plano_contas.py:32-155 | the chart starts with the accounts given |
| ChartOfAccounts.Chart.AddAccount | plano_contas.py:243-300 | the outcome and the new chart are the specified addition |
| ChartOfAccounts.Chart.DeleteAccount | plano_contas.py:335-368 | the outcome and the new chart are the specified deletion |
| ChartOfAccounts.Chart.ExportChart | plano_contas.py:411-438 | the rows are the export of the chart |
| ChartOfAccounts.Chart.ImportPlan | plano_contas.py:453-514 | the loop over the rows computes the specified import, with the corrected placing of rows |
| ChartOfAccounts.Search | plano_contas.py:384-395 | a path the search returns has at least two codes and starts with the parent code |
| ChartOfAccounts.SearchClasses | plano_contas.py:377-381 | a path the class loop returns has at least two codes |
| ChartOfAccounts.PathOf | plano_contas.py:370-382 | a path found is never empty |

## Left out

- Persistence, logging and messages are not modelled. This covers JSON loading and saving, log files, message boxes and Excel or CSV reading. A save is a boolean parameter (`saved`), and loaded data is a constructor parameter.
- The Tk user interface is not modelled: windows, tree views, combo boxes and dialogs. Dialog answers and form contents are parameters: the selected code, the confirmation, the entered name, and the form fields.
- Report and chart rendering (PDF, ReportLab, matplotlib) is not modelled. Neither is the statistical forecasting (moving average, ARIMA, trend), which belongs to external libraries and floating point.
- `fuzz.token_sort_ratio` is a parameter function into 0..100; its algorithm is not modelled.
- `datetime.now()` is a parameter (`now`). In the recurring entries, the cash-flow forecast, the budget and the filters, time of day is not modelled: dates are calendar dates. The audit log keeps its timestamps as whole seconds.
- IEEE floating point is not modelled. Amounts are exact reals, so rounding effects near the 0.01 tolerances are not captured. NaN descriptions are `NonText`; NaN amounts are not modelled.
- Parsing inside the filters is not modelled: `strptime` and `float` are parameter functions. Date and amount parsing in the ledger import and the `dropna` of unparsable rows are not modelled either. Imported values arrive parsed, and codes arrive as strings.
- Normalization.Depunctuate: Python's `\w` is modelled exactly up to U+00FF and in U+2000 to U+20FF (punctuation including the connector ties, super- and subscripts, currency signs); any other non-space character above U+00FF counts as a word character, so punctuation from other blocks is kept where the source turns it into a space.
- Dates have no upper year bound. Python's `datetime` stops at year 9999, so the month end of December 9999 (which builds 1 January 10000) and any recurring or forecast step past 31 December 9999 raise in the source, while the model goes on.
- Lower-casing covers ASCII and the Latin-1 accented letters used in Portuguese; full Unicode case mapping is not modelled.
- Recurring.GenerateDates: a precondition excludes an unknown periodicity on a non-empty window, where the source never terminates. An annual 29 February start raises in the source once its first aligned date is in the period, and is an `Err` here exactly then.
- A Python `KeyError` is `None` or an error outcome in the model: `Find`, `NodeAt`, `ParentNotFound` and `NotFound` when adding or deleting accounts, and `Settings.Copied`.
- The in-place mutation of the nested account dictionaries is modelled by rebuilding the tree along the path (`UpdateAt`). Aliasing between dictionaries is not modelled.
- `editar_conta` and the Tk tree view's conversion of numeric codes are not part of this model. Neither are `registrar_criacao_lancamento`, `registrar_exclusao_lancamento` and `restaurar_padrao`, which only call the modelled operations or fill dialog fields.
- `adicionar_subcontas_para_exportacao` takes a parent code it never uses; the model leaves it out.
- LegacyReconciliation.CleanAmountUnsigned: the amount cleaning of the ledger import deletes a minus sign with the other non-numeric characters, so "-50,00" reads as 50. This is recorded as the code's behaviour.
- LegacyReconciliation.CleanAmount: keeps only the ASCII digits 0 to 9, while the source's `[^\d.,]` also keeps every other Unicode decimal digit (Arabic-Indic, fullwidth and so on); like the lower-casing, only the characters of Portuguese bank and ledger files are modelled.
- Filters.AmountTextPointIsDropped: the filters read "12.5" as 125, because every point is deleted as a thousands separator. This is recorded as the code's behaviour.
- LegacyReconciliation.RiskMonotone: every negative amount gets the lowest risk band, whatever its size. This is recorded as the code's behaviour.
- GroupingAsWritten.TryLedger: its contract states only that the tables keep their sizes. Its behaviour is exhibited by GroupingAsWritten.GroupingReclaimsRows.
- GroupingAsWritten.LedgerSizes: its contract states only that the tables keep their sizes, for the same reason.
- GroupingAsWritten.BankGroups: its contract states only that the tables keep their sizes, for the same reason.
- GroupingAsWritten.BankSizes: its contract states only that the tables keep their sizes, for the same reason.
- GroupingAsWritten.DateAsWritten: its contract states only that the tables keep their sizes, for the same reason.
- Pairing.PairStep: its own contract states only that the tables keep their sizes. The pass's properties are in Pairing.PairStepKeeps, Pairing.FirstFit and Pairing.PairStepSaturates.
- Pairing.PairPass: its own contract states only that the tables keep their sizes. The pass's properties are in Pairing.PairPassKeeps and Pairing.PairPassSaturates.
- ChartOfAccounts.Search: its own contract gives only the path's first code and length. The full shape is ChartOfAccounts.SearchShape, and completeness is ChartOfAccounts.SearchComplete.
- ChartOfAccounts.SearchClasses: its own contract gives only the path's length. The full shape is ChartOfAccounts.SearchClassesShape.
- ChartOfAccounts.ExportImportRoundTrip: the round trip is proved for charts whose codes each occur once and whose dotted sub-account codes name their parent's code. A dotted code is placed by looking its parent code up, and the lookup finds the first account with that code.
- ChartOfAccounts.PathOf: its own contract states only that a path is not empty. The full properties are ChartOfAccounts.PathOfComplete and ChartOfAccounts.PathRoundTrip.

## Findings

| source | as written | input that shows it | evidently intended | confidence | as-written member | corrected member |
|---|---|---|---|---|---|---|
| conciliacao_automatica.py:163-239 | the grouping pass takes the free bank rows of a date and the free ledger rows near it once (lines 180-186). It refreshes only the outer copies after a match (228-229), while the next turns of the loop over bank group sizes still draw their combinations from those two lists, so rows already matched are claimed again | bank rows 100 and 50, ledger rows 60, 40 and 90, all on one date, tolerance 3: bank row 0 and ledger row 0 end up in two matches | each combination is drawn from rows still free, with the single pass over the bank group sizes 1 to 3 and its breaks kept | not executed | GroupingAsWritten.GroupingReclaimsRows | Grouping.GroupPassKeeps (used by Reconciliation.Reconciler.GroupRows) |
| contabilidade.py:109 | converted entries (lines 109 and 136) are numbered len(lancamentos) + novos + 1 after each append, so the length is counted twice | three new bank rows on an empty ledger get B1, B3 and B5; the second entry created by `aplicar_sugestao`, numbered "B" + (length + 1), is B5 again | position numbering, each new entry "B"/"L" + (its position + 1) | not executed | Ledger.ConvertIdsAsWrittenCollide | Ledger.ConvertRowsAppends with Ledger.PositionNumbersAreUnique |
| orcamento_realizado.py:312-317 | a yearly comparison reads `'receitas'` and `'despesas'` directly from the year node, whose keys are month numbers, so no yearly budget is ever seen | 100 budgeted for "Vendas" in January 2024, compared for the year 2024: the line reads a budget of 0 | the year's budget is the sum of its months' budgets | not executed | Budget.YearBudgetIgnoredAsWritten | Budget.YearBudgetCounts |
| fluxo_caixa_projetado.py:265-272 | weekly occurrences start at max(start, period start), and the weekday computed at 267 is never used | an entry starting Monday 1 January 2024, forecast from Wednesday 3 January: the first occurrence is that Wednesday | weekly occurrences fall on the start's weekday | not executed | ForecastDates.WeeklyAsWrittenOffWeekday | ForecastDates.WeeklyKeepsWeekday |
| fluxo_caixa_projetado.py:119-120 | a recurring entry gets id len(list) + 1, which is already taken after a removal | add two entries (ids 1 and 2), remove id 1, add another: it gets id 2 again, and removing 2 removes only the older one | an id not in use | not executed | CashForecast.AsWrittenIdsCollide | CashForecast.NextId with CashForecast.AddKeepsIdsDistinct (used by CashForecast.Forecast.AddRecurring) |
| filtros_avancados.py:230-265 | the origin filter is stored (219-220) but never applied: the comment at 306 says the caller applies it, and the caller does not | the origin filter set to the bank, an empty bank table and one ledger row: the ledger row is listed | only rows of the chosen origin are listed | not executed | Filters.OriginIgnoredAsWritten | Filters.TableSound (used by Filters.AdvancedFilters.FilterTable) |
| plano_contas.py:486-504 | an imported row below level 1 is attached only when its code has a '.', but the default chart's codes ("4", "43", "431") have none | class 4 with account 43 exports to the rows ("4", level 1) and ("43", level 2) and imports back as class 4 alone | importing an export gives the chart back: a sub-account row whose code has no '.' goes under the last account read at the level above, while dotted codes still go under their parent code | not executed | ChartOfAccounts.ImportDropsSubaccountsAsWritten | ChartOfAccounts.ExportImportRoundTrip (used by ChartOfAccounts.Chart.ImportPlan) |
