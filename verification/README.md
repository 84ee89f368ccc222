# Vendor Bill Hub: verified core

A Dafny model of the decision core of an e-invoice to Odoo hub, with proofs over every input, every run or every
reachable state. Four parts are modelled.

1. **Vendor Bill money and construction.** `Money`, `Invoice`, `LineEconomics`, `VendorBill`, `BillValidation`,
   `AcceptableRequests`, `FindingMeaning`, `BillBuilder`, `MonetaryGate`, `NetAmounts`, `TaxTotals`,
   `NeutralAllowances`, `RequestExamples`, `TrimmedTexts`. Validation in every mode (product, operating expense,
   account-only lines, RESALE and INTERNAL_USE pins, fixed asset), the net and the derived posting price, the built
   bill, the Odoo line payload and the monetary gate before the write.
2. **Foreign-currency rates.** `FxRate`, `AutomaticRates`, `RateRoundTrip`, `FxVerification`, `VerifiedAmounts`. The
   rule cascade that selects the invoice's own rate, the rate Odoo would have used, the reciprocal that Odoo stores,
   and the verification of the journal lines.
3. **Advisory suggestions and their display.** `Sorting`, `Ranking`, `AttributeGuard`, `SuggestionEngine`,
   `SuggestionTiers`, `SuggestionGuards`, `TierPrecedence`, `SuggestionEvidence`, `SuggestionSets`, `SuggestionTable`,
   `AdvisoryTick`, `TickInputs`, `TickMeaning`, `DisplayProtocol`, `DisplayOverlap`, `DisplayReader`,
   `DisplayedViews`, `DisplayRefresher`, `RetryMeaning`, `SweepRefinement`, `TickRefinement`, `AdvisoryWorker`,
   `DisplayCleaner`. The engine, its cache, the worker's tick, the timed sweep with backoff, the step system both
   refine, and the clear, settle, confirm rollback.
4. **Deterministic matching.** `MatchTypes`, `ProductMatching`, `LineVerdict`, `PartnerMatching`, `EffectiveSupplier`,
   `PartnerVerdict`, `StaleAgreement`, and `MatchedEvidence`, where the matcher meets the bill builder.

Code that loops and updates is a method or a class proved against a specification function; expressions are functions;
what the system promises is proved about those functions. `LineVerdict`, `PartnerVerdict`, `FindingMeaning`,
`NetAmounts`, `TaxTotals`, `VerifiedAmounts`, `AutomaticRates`, `TierPrecedence`, `SuggestionEvidence`, `TickInputs`,
`DisplayedViews`, `RetryMeaning` and `TrimmedTexts` say the same things a second time over inputs and answers alone,
without the specification functions, so that neither can be wrong by itself. `dafny verify dfyconfig.toml` checks the
whole project.

## Results worth knowing

- `LineEconomics.PriceDerivationExact`: a six-decimal posting price carries every net amount on the currency grid
  exactly when the quantity is at most 10^(6 - decimal places). Above that, for every quantity, some line is billed a
  different amount (10001 pieces for 50.00 come back as 50.01), and `RequestExamples.GateReachExact` carries that
  through validation and construction to the gate.
- `AcceptableRequests.AcceptableExactly`: validation is silent exactly on the requests described by a declarative
  predicate over the invoice and the evidence, in every mode.
- `FindingMeaning.FindingsExactly`: validation reports each of its 40 findings exactly under its own condition over the
  request.
- `TaxTotals.ConsistentSourcePasses`: a source whose taxes are exactly its rates' share of its nets, and whose totals are
  exactly its own sums, passes the gate except in one case: its tax is half a quantum and the untaxed amount moves it
  across zero. Half-up rounding is not symmetric under that shift; `TaxTotals.ConsistentSourceStopped` is such a source.
- `LineVerdict.VerdictExactly`: the matcher's answer for a line, read off the repository's answers alone.
- `SuggestionGuards.SuggestionsExplained`: every suggestion is justified by the evidence and guards of its tier, and
  every justified candidate is suggested or outranked by a full list.
- `BillBuilder.ValidationMakesBuildingTotal`: a request without findings builds one faithful line per source line,
  unless a plain product line's evidence names a non-positive product; then the line constructor rejects it. No other
  failure exists, and `RequestExamples.BadProductPassesValidation` is such a request. Evidence from the product matcher
  over positive record ids never is (`MatchedEvidence.MatchedRequestBuilds`).
- `DisplayProtocol.DisplayNeverStale` is stated for any budget: if a completely successful sweep always began at most
  that long ago, what Odoo shows was validated at most `PROJECTION_CUTOFF` plus the budget ago. The documented
  `DISPLAY_VALIDITY` therefore holds on every run if and only if the budget is at most `DISPLAY_SWEEP_INTERVAL`
  (`DisplayProtocol.BudgetExact`). The scheduler starts a sweep one interval after the previous start
  (`app/workers/uyumsoft_inbound_poller.py:123-140`), so the real budget is the interval plus what a sweep takes, and
  `DisplayProtocol.SlowSweepsBreakTheContract` shows a set that much past its validity.
- The display theorem excludes one coincidence: the start mark of a refresh, the projection and the end of
  projectability of a published set fall on the same instant, the refresh's compare-and-set records the mark, and no
  other set of the review stays unmarked. The exclusion is exact (`DisplayOverlap.FatalExactly`): a step leads to a
  state from which the contract can be broken without any further overlap if and only if it is itself such an overlap.
  After one, a set of any age can be shown although a complete sweep always began at most the budget ago
  (`DisplayOverlap.OverlapIsFatal`; in the run it constructs, a sweep that was running fails first).
- `AdvisoryWorker.WorkerStaysFresh`: the refresher's sweeps, whatever their outcome, and the worker's ticks are guarded
  runs of that step system that leave the very display their calls wrote. So every sequence of ticks, sweeps, resets
  and projections in between, failed and partial ones included, without an overlap and from an empty table on, leaves on
  display only fresh sets, at most one current set per line, and every stored set an answer of the engine.
- `TickMeaning.TickServes` with `TickMeaning.ServingIsFresh`: after a tick every wanted line it came to, unless
  generating its set raised, has exactly one current set, validated by this tick, whose stored result is what the engine
  answers from today's catalog with the prior mappings of the set's generation. No digest covers the prior mappings, so
  a changed history alone never regenerates a set (`app/services/advisory_product_suggestions.py:268-278`).
- `DisplayCleaner.NoMarkExactly`: the rollback's confirming count finds nothing if and only if every sweep that
  refreshed a current set since the reset was undone by a retirement, or by a revalidation of a set already recorded as
  cleared.
- `RateRoundTrip.ReadBackExact`: a six-decimal rate survives being stored as a float and read back as that float's
  shortest decimal, whatever the two roundings do, exactly when it is below 2^51 micro-units (about 2.25 billion).
  `RateRoundTrip.LostRate` is a rate of about 3.1 billion that comes back one micro-unit lower. Rates with more decimals
  are compared after normalization, and `RateRoundTrip.AnyRateExact` gives the distance from a rounding tie that makes
  the comparison succeed: the everyday rate 41.2345645 fails it (`RateRoundTrip.LostTie`).
- `FxVerification.TotalCheckExact`: the total check follows from the line checks exactly with at most one tax line.
- `EffectiveSupplier.ReclassificationAgrees`: reclassification and the resolver use one supplier exactly when no
  MATCHED raw result lacks a positive partner id while an accepted supplier is proven; reclassification tests the
  status alone (`app/application/use_cases/effective_decision.py:463-465`), the resolver also the id.
- `StaleAgreement.AgreementExact`: the engine documents that its T0 tier sees exactly the matcher's rows. The rows
  agree, the variants need not: T0 looks among purchasable variants, the matcher among all active ones. The lemma gives
  the exact condition and `StaleAgreement.TwoActiveOnePurchasable` the smallest disagreement.

## Model

| member | source | states |
|---|---|---|
| `Money.RoundsTo` | app/billing/money.py:44-51 | an amount strictly within half a quantum of a grid value rounds to that value |
| `Money.HalfUpMeaning` | app/billing/money.py:44-51 | ROUND_HALF_UP is the unique nearest integer with ties away from zero (roundTiesToAway, section 4.3.1 of IEEE 754-2008) |
| `Money.RoundClose` | app/billing/money.py:44-51 | rounding moves an amount by at most half a quantum |
| `Money.GridFixed` | app/billing/money.py:44-51 | an amount on the currency grid rounds to itself |
| `Money.MonetaryEqualMeaning` | app/billing/money.py:54-57 | two amounts are equal exactly when they round to the same whole number of quanta |
| `TrimmedTexts.StripExactly` | app/billing/builder.py:340-356 | trimming leaves exactly the text inside the surrounding whitespace |
| `TrimmedTexts.CleanExactly` | app/matching/product.py:327-331 | a text counts as missing if and only if it is absent or all whitespace; otherwise its trimmed form is used |
| `TrimmedTexts.CurrencyExactly` | app/billing/fx_rate.py:131-150 | currency codes are compared trimmed and in capitals |
| `LineEconomics.WithinLimitReproduces` | app/billing/builder.py:975-1006 | up to the quantity limit, quantity times posting price rounds back to exactly the authoritative net in all three branches |
| `LineEconomics.BeyondLimitFails` | app/billing/builder.py:975-1006 | above the limit, for every quantity, an undiscounted line with a grid net is billed a different amount |
| `LineEconomics.PriceDerivationExact` | app/billing/builder.py:933-1006 | with the net of `NetAmounts.NetMeaning`: a quantity is safe for every grid net if and only if it is at most 10^(6 - decimal places) |
| `LineEconomics.PriceDerivationCounterexample` | app/billing/builder.py:996-1006 | 10001 pieces, net 50.00, source price 0: price 0.005, subtotal 50.01 |
| `NetAmounts.NetMeaning` | app/billing/builder.py:923-948 | an undiscounted line nets its stated extension; any other nets quantity times price less every stated discount amount |
| `NetAmounts.FurtherDiscount` | app/billing/builder.py:929-948 | one more discount of a discounted line lowers its net by exactly that amount |
| `NetAmounts.ExtensionIgnored` | app/billing/builder.py:933-948 | a discounted line ignores its stated extension |
| `NetAmounts.NetWithinGross` | app/billing/builder.py:1009-1030 | on every validated discounted line the net lies between zero and the gross at the precision |
| `NetAmounts.PostedPriceMeaning` | app/billing/builder.py:975-1006 | the posted price is the source price, or the net per unit to the nearest of six decimals, and when it is which |
| `NetAmounts.DiscountNeverRaisesPrice` | app/billing/builder.py:975-1006 | a built bill posts no discounted line above its source price by more than half of the sixth decimal |
| `VendorBill.ConstructibleShapes` | app/billing/dto.py:133-177 | the line constructor accepts exactly five shapes and no line has two of them |
| `VendorBill.AccountOnProductIsPinned` | app/billing/dto.py:143-169 | a product line carries an account only when that account is its sealed pin |
| `VendorBill.PayloadLosesNothing` | app/billing/builder.py:699-771 | for every constructible line the payload posts exactly its product with that product's own unit of measure, account, asset model, quantity, price and taxes; it is refused exactly when a product has no unit of measure |
| `BillValidation.ValidatedProducts` | app/billing/builder.py:1173-1200 | the table of accepted product results and the findings, for every result list and skip set |
| `BillValidation.ValidatedTaxes` | app/billing/builder.py:1203-1218 | the table of accepted tax results and the findings |
| `BillValidation.CheckLine` | app/billing/builder.py:371-389 | the findings of one line, in order, with the early exit on a missing line number |
| `BillValidation.CheckLines` | app/billing/builder.py:371-389 | the findings of every line in order |
| `BillValidation.CheckPins` | app/billing/builder.py:494-554 | the findings of a RESALE or INTERNAL_USE pin table |
| `BillValidation.Validate` | app/billing/builder.py:247-416 | the complete finding list in source order, in every mode |
| `AcceptableRequests.TaxesExactly` | app/billing/builder.py:1203-1218 | no tax finding if and only if results are matched, carry ids and never repeat a key; the table then holds exactly the evidenced keys |
| `AcceptableRequests.ProductsExactly` | app/billing/builder.py:1173-1200 | the same for product results outside the skipped lines |
| `AcceptableRequests.LinesExactly` | app/billing/builder.py:371-389 | no line finding if and only if every line is numbered, priced, evidenced and soundly discounted |
| `AcceptableRequests.PinsExactly` | app/billing/builder.py:494-554 | no pin finding if and only if the pins cover exactly the lines of a pure product bill, each sealed for its line and matched product |
| `AcceptableRequests.AssetExactly` | app/billing/builder.py:419-491 | when the fixed-asset mode is silent |
| `AcceptableRequests.AcceptableExactly` | app/billing/builder.py:247-491 | validation is silent if and only if the request is acceptable, in every mode |
| `FindingMeaning.FindingsExactly` | app/billing/builder.py:247-491 | every finding is reported if and only if its own condition over the request holds |
| `FindingMeaning.BuiltAccount` | app/billing/builder.py:578-606 | an account-only line of a built bill posts its own positive account, otherwise the supplier-wide matched one |
| `FindingMeaning.BuiltHeader` | app/billing/builder.py:101-178 | supplier, trimmed number, date, trimmed currency and company of a built bill are the evidence's and the invoice's |
| `BillBuilder.BuildLineCorrect` | app/billing/builder.py:788-858 | after clean validation a line builds to the line its evidence prescribes, or is rejected exactly for a non-positive product |
| `BillBuilder.ValidationMakesBuildingTotal` | app/billing/builder.py:101-178 | a clean request builds one faithful line per source line in order exactly when no plain product line is evidenced by a non-positive id; no missing key, failed assertion or refusal otherwise |
| `BillBuilder.BuiltAccountsArePinned` | app/billing/builder.py:101-178 | in every built bill a product line's account is its sealed pin |
| `MonetaryGate.CompareTotals` | app/billing/reconciliation.py:46-61 | one finding per stated total that differs or is unavailable, in order |
| `MonetaryGate.CompareLines` | app/billing/builder.py:1111-1130 | the line-count finding, or one finding per line whose billed amount is not its net |
| `MonetaryGate.RunGate` | app/billing/builder.py:1133-1162 | line findings followed by the findings of the stated totals; what the totals are is `TaxTotals.GateTax` and `TaxTotals.SourceTotalsMeaning` |
| `MonetaryGate.GateMeaning` | app/billing/builder.py:1133-1162 | the gate is silent if and only if lines correspond one to one, each bills its net, and every stated total is the stored one at the currency's precision |
| `MonetaryGate.SubtotalsWithin` | app/billing/builder.py:1084-1108 | the stored untaxed amount of n lines is within n/2 quanta of the exact extensions |
| `MonetaryGate.MoneyOnGrid` | app/billing/builder.py:1084-1108 | untaxed, tax and total are whole numbers of quanta |
| `MonetaryGate.GateSoundness` | app/billing/builder.py:1084-1162 | a silent gate proves total = untaxed + tax, the exact extensions within (n+1)/2 quanta of the stated untaxed amount, and three stated totals consistent within 1.5 quanta |
| `MonetaryGate.TotalsInvariantCarries` | app/billing/builder.py:1033-1067 | a validated, discounted invoice whose lines bill their nets always passes the untaxed comparison |
| `MonetaryGate.BuiltBillAgrees` | app/billing/builder.py:1111-1130 | within the quantity limit a built bill with grid nets never trips the line gate |
| `MonetaryGate.OnlyTaxOrGrossCanStop` | app/billing/builder.py:1133-1162 | such a discounted bill passes the gate if and only if its tax and gross totals agree |
| `TaxTotals.SourceTotalsMeaning` | app/billing/reconciliation.py:27-33 | the compared totals are the stated ones and the sum of the tax amounts, which is absent exactly when some tax states no amount |
| `TaxTotals.GateTax` | app/billing/builder.py:1084-1108 | the bill's tax is the sum of net times rate over one hundred, rounded once |
| `TaxTotals.SilentGateBoundsTax` | app/billing/builder.py:1133-1162 | a silent gate with all amounts stated puts their sum within one quantum of the sum of net times rate over one hundred |
| `TaxTotals.ConsistentSourcePasses` | app/billing/builder.py:1084-1162 | a consistent source passes the gate, with every bill of its nets, if and only if its tax is not a tie that the untaxed amount moves across zero |
| `TaxTotals.OneSignPasses` | app/billing/builder.py:1084-1162 | in particular every consistent source without negative amounts passes |
| `TaxTotals.ConsistentSourceStopped` | app/billing/builder.py:1084-1162 | a consistent source of untaxed -1 and tax 0.5 without decimals is stopped |
| `RequestExamples.PlainRequestPasses` | app/billing/builder.py:247-416 | a bare product request passes validation whatever its product id |
| `RequestExamples.BadProductPassesValidation` | app/billing/dto.py:170-177 | product id 0 passes validation and is rejected by the line constructor |
| `RequestExamples.GateStopsBeyondLimit` | app/billing/builder.py:975-1006 | for every quantity above the limit a validated, built bill with a grid net is stopped by the line gate |
| `RequestExamples.GateReachExact` | app/billing/builder.py:1111-1130 | the line gate is silent on every built bill of grid nets with this quantity if and only if the quantity is within the limit |
| `NeutralAllowances.InsertNeutral` | app/billing/builder.py:911-920 | adding or removing one zero-effect allowance anywhere leaves the erased line unchanged |
| `NeutralAllowances.EraseLineEconomics` | app/billing/builder.py:923-1030 | gross, net, posting price, discount findings and tax of a line ignore zero-effect allowances |
| `NeutralAllowances.EraseValidation` | app/billing/builder.py:247-416 | the findings of a request ignore zero-effect allowances in every mode |
| `NeutralAllowances.EraseBuild` | app/billing/builder.py:101-178 | so does the built bill or failure |
| `NeutralAllowances.EraseGate` | app/billing/builder.py:1084-1162 | so does the gate |
| `NeutralAllowances.NeutralAllowancesErasable` | app/billing/builder.py:911-948 | two requests that differ only in zero-effect allowances get the same findings, bill and gate verdict |
| `FxRate.StatedPricingRate` | app/billing/fx_rate.py:154-206 | which blocking status is returned, each as an if-and-only-if over the facts, and the unique usable pricing rate otherwise |
| `FxRate.SelectRate` | app/billing/fx_rate.py:131-246 | a rate is selected exactly when one positive, correctly directed pricing rate agrees with the evidence and with every other stated rate of that direction; the expected company amounts and the displayed difference; when each blocking status is returned |
| `FxRate.PricingCount` | app/billing/fx_rate.py:176-190 | exactly one fact survives the pricing filter just when one position holds the only pricing rate |
| `FxRate.AgreedRate` | app/billing/fx_rate.py:199-224 | the agreed rate is unique |
| `AutomaticRates.AutomaticRateExactly` | app/billing/fx_rate.py:405-408 | Odoo's answer becomes a displayed rate if and only if it is positive and its inverse does not round to 1 at six decimals; the displayed rate is that inverse to the nearest millionth, ties even |
| `AutomaticRates.OneIsNoRate` | app/billing/fx_rate.py:405-408 | Odoo's 1.0 yields no automatic rate |
| `FxRate.HalfEvenMeaning` | app/billing/fx_rate.py:127-128 | ROUND_HALF_EVEN is the unique nearest integer with ties to even (roundTiesToEven, section 4.3.1 of IEEE 754-2008) |
| `RateRoundTrip.RoundTripExact` | app/billing/fx_rate.py:116-128 | a six-decimal rate is recovered from every stored value within half an ulp of its reciprocal if and only if it is below 2^52 micro-units |
| `RateRoundTrip.ReadBackExact` | app/erp/odoo/vendor_bill_company_amounts_reader.py:97-106 | stored as a float and read as its shortest decimal, a six-decimal rate is recovered for every pair of roundings if and only if it is below 2^51 micro-units |
| `RateRoundTrip.LostRate` | app/billing/fx_rate.py:116-128 | 3128291761.202428 comes back as 3128291761.202427 |
| `RateRoundTrip.AnyRateExact` | app/billing/fx_rate.py:335-341 | for every positive rate the value read back equals the normalized rate for every pair of roundings if and only if the rate keeps the stated distance from the rounding ties |
| `RateRoundTrip.LostTie` | app/billing/fx_rate.py:116-128 | 41.2345645 normalizes to 41.234564 and comes back as 41.234565 |
| `RateRoundTrip.HubRateRoundTrip` | app/billing/fx_rate.py:106-128 | with the float, the decimal read and the errors of both 40-digit divisions, every rate up to two billion survives the trip |
| `FxVerification.SplitByKind` | app/billing/fx_rate.py:343-353 | product, tax and payable lines in order; no finding exactly when every line kind is known |
| `FxVerification.CheckLineAmounts` | app/billing/fx_rate.py:357-365 | no mismatch exactly when every balance is within tolerance of its conversion |
| `FxVerification.Verify` | app/billing/fx_rate.py:305-389 | VERIFIED if and only if every condition is proven (written out in `VerifiedAmounts.VerifiedExactly`); each mismatch if and only if its own condition holds; each other status exactly characterized; the reported company amounts |
| `VerifiedAmounts.VerifiedExactly` | app/billing/fx_rate.py:305-389 | VERIFIED written out over the journal lines: a product line within one quantum of its rounded conversion, a tax line within one per product line, the payable within that many more of the expected total, balances that cancel, and the header |
| `VerifiedAmounts.VerifiedBounds` | app/billing/fx_rate.py:357-365 | at every precision VERIFIED bounds every tax line by its exact conversion, and a line more than max(1, n) quanta off its rounded one is never VERIFIED |
| `FxVerification.VerifiedSoundness` | app/billing/fx_rate.py:357-389 | VERIFIED bounds the untaxed company amount by 1.5 quanta per product line and the payable by untaxed plus tax, for any number of lines |
| `FxVerification.AtMostOneTaxSuffices` | app/billing/fx_rate.py:357-378 | with at most one tax line the line checks and the balance imply the total check |
| `FxVerification.SeveralTaxesCanFail` | app/billing/fx_rate.py:357-378 | for every number of product lines, two or more tax lines can break it |
| `FxVerification.TotalCheckExact` | app/billing/fx_rate.py:357-378 | the total check is implied if and only if there is at most one tax line |
| `Sorting.SortByForgetsOrder` | app/advisory/product_suggestions.py:243-246 | sorted rows are equal if and only if the rows are permutations, when no two different rows tie |
| `Ranking.Rank` | app/advisory/product_suggestions.py:551-596 | the two loops compute the shortlist that `TierPrecedence.ShortlistInOrder`, `ShortlistIsPrefix` and `RanksWritten` describe |
| `Ranking.BestMeaning` | app/advisory/product_suggestions.py:559-566 | every product keeps one candidate with its best tier and score |
| `Ranking.OrderedMeaning` | app/advisory/product_suggestions.py:559-567 | the ordered list holds each best candidate once, strictly sorted; the order itself is `TierPrecedence.ShortlistInOrder` |
| `Ranking.SharedRank` | app/advisory/product_suggestions.py:571-578 | two candidates share a rank if and only if the later one is tied with the head of the earlier one's group |
| `Ranking.AmbiguousMeaning` | app/advisory/product_suggestions.py:579-580 | ambiguous if and only if the first two candidates tie |
| `Ranking.ShortlistMeaning` | app/advisory/product_suggestions.py:551-596 | a prefix of the ordered list, rank between 1 and position and maximum, tie warnings exactly on shared ranks |
| `Ranking.RankingIsOrderIndependent` | app/advisory/product_suggestions.py:551-596 | product, tier, score, rank, warnings and ambiguity depend only on the set of candidates |
| `TierPrecedence.ShortlistInOrder` | app/advisory/product_suggestions.py:98-105 | in every shortlist no candidate of a later tier precedes one of an earlier tier, T0 to T3 written out; within a tier scores fall, and equal scores go by product id |
| `TierPrecedence.SuggestionsInOrder` | app/advisory/product_suggestions.py:249-299 | the same of whatever the engine shows |
| `TierPrecedence.ShortlistIsPrefix` | app/advisory/product_suggestions.py:567-596 | a shortlist is a prefix of the uncut one, and ambiguous if and only if the uncut one's second entry has the first one's tier and, within the margin, its score |
| `TierPrecedence.RanksWritten` | app/advisory/product_suggestions.py:571-578 | two entries share a rank if and only if the later one has the tier and, within the margin, the score of the entry at that rank |
| `TierPrecedence.TiedWritten` | app/advisory/product_suggestions.py:582-596 | a marked entry shares its rank with another one |
| `TierPrecedence.ShownIsFirst` | app/advisory/product_suggestions.py:559-566 | a shown product keeps the first of its candidates that none outdoes |
| `AttributeGuard.ConflictExactly` | app/advisory/product_suggestions.py:722-739 | the guard fires if and only if an attribute stated by both sides differs, or both state capacities without a common metric |
| `AttributeGuard.ConflictSymmetric` | app/advisory/product_suggestions.py:722-739 | it does not matter which side is the line |
| `AttributeGuard.NeverSelfConflict` | app/advisory/product_suggestions.py:722-739 | a text never conflicts with itself or with one that states nothing |
| `SuggestionEngine.EngineIsPermutationInvariant` | app/advisory/product_suggestions.py:249-329 | the whole result is independent of the order of variants, supplier rows and categories |
| `SuggestionTiers.ExactMatches` | app/advisory/product_suggestions.py:442-453 | the variants whose Internal Reference equals one identifier |
| `SuggestionTiers.ExactIdentifiers` | app/advisory/product_suggestions.py:428-463 | the nested loop collects the specified T1 candidates and note |
| `SuggestionTiers.PriorMappings` | app/advisory/product_suggestions.py:466-495 | the guarded loop collects the specified T2 candidates |
| `SuggestionTiers.NameSimilarities` | app/advisory/product_suggestions.py:498-545 | the guarded loop collects the specified T3 candidates, the rejection count and the notes |
| `SuggestionTiers.Suggest` | app/advisory/product_suggestions.py:249-299 | the whole engine computes the specified result |
| `SuggestionGuards.FoundExactly` | app/advisory/product_suggestions.py:428-545 | a product, tier and score is a candidate if and only if an eligible variant has that tier's evidence and no guard discriminates against it |
| `SuggestionGuards.SuggestionsExplained` | app/advisory/product_suggestions.py:249-299 | T0 alone when it names a product; otherwise every suggestion is justified, and every justified candidate is suggested at least as strongly or the list is full of nothing weaker |
| `TierPrecedence.EvidencePrecedes` | app/advisory/product_suggestions.py:249-299 | a product with exact-identifier evidence is never shown under a later tier, one with a prior mapping never as a name similarity; a later tier is shown only beside every product of the earlier one |
| `SuggestionEvidence.JustifiedExactly` | app/advisory/product_suggestions.py:331-545 | the evidence of each tier over the line, the catalog and the prior mappings, with every guard written out: for which codes, categories and attributes a variant is rejected |
| `SuggestionEvidence.NotesExactly` | app/advisory/product_suggestions.py:384-545 | each advisory note accompanies the suggestions if and only if its own condition holds |
| `SuggestionSets.Retirement` | app/advisory/suggestion_sets.py:176-186 | a retired set is never current; which of the three reasons applies, each as an if-and-only-if |
| `DisplayedViews.BlockedExactly` | app/advisory/suggestion_sets.py:203-225 | a set is blocked for a line by the first of nine written-out conditions that fails, and by nothing else |
| `DisplayedViews.ViewExactly` | app/composition/advisory_display.py:92-130 | a displayed view is the one stored set of this pending line: same version, key, number, supplier and seller code, current, at most nineteen minutes old, with something to say |
| `DisplayedViews.DueExactly` | app/advisory/suggestion_sets.py:254-268 | when a set is due for a refresh, in minutes |
| `SuggestionSets.ProjectionMargin` | app/advisory/suggestion_sets.py:189-200 | a current set is projectable exactly when it stays displayable for one whole sweep interval |
| `SuggestionSets.OverlapInstant` | app/advisory/suggestion_sets.py:196-251 | a refresh shows a set and records it as cleared exactly when it starts and projects at the cutoff instant |
| `SuggestionSets.FingerprintsMeaning` | app/advisory/product_suggestions.py:206-246 | both fingerprints agree if and only if the catalogs are permutations |
| `SuggestionSets.KeptExactlyWhenUnchanged` | app/advisory/suggestion_sets.py:155-173 | a generated set is kept if and only if inputs are unchanged and the catalog holds the same rows |
| `SuggestionSets.CacheAgreement` | app/advisory/suggestion_sets.py:155-173 | a kept set's result is what the engine would compute now |
| `SuggestionTable.Table.DisplayRefreshDue` | app/persistence/product_line_suggestion_repository.py:99-116 | exactly the due sets, in id order |
| `SuggestionTable.Table.MarkDisplaySynced` | app/persistence/product_line_suggestion_repository.py:234-256 | a row is marked only when status and validation are the ones read; the count of rows that still are |
| `SuggestionTable.Table.ResetDisplayMarkers` | app/persistence/product_line_suggestion_repository.py:258-277 | every current set loses its marker, history keeps it; the count of changed rows |
| `SuggestionTable.Table.CountDisplayMarkedCurrent` | app/persistence/product_line_suggestion_repository.py:279-293 | the number of marked current sets |
| `SuggestionTable.Table.InsertCurrent` | app/models/workbench_product_line_suggestion.py:64-73 | the row is appended exactly when its line has no current set; otherwise the index refuses it |
| `SuggestionTable.Table.RetireSet` | app/persistence/product_line_suggestion_repository.py:181-201 | compare-and-swap to the new status, false exactly for an unknown set or one that is not current; a set that may still be shown becomes due |
| `SuggestionTable.Table.RevalidateSets` | app/persistence/product_line_suggestion_repository.py:203-232 | every current set of the batch gets the new validation time and loses its marker when it was cleared; the count of updated rows |
| `AdvisoryTick.RetireOrphans` | app/services/advisory_product_suggestions.py:332-343 | every current set of the company without a wanted line is retired with its status, and counted; nothing else changes |
| `AdvisoryTick.RunRound` | app/services/advisory_product_suggestions.py:268-304 | one line: its listed set is kept, or superseded together with the insert, or everything is rolled back |
| `AdvisoryTick.RunLines` | app/services/advisory_product_suggestions.py:259-304 | the line loop up to the exhausted budget computes the specified rounds |
| `AdvisoryTick.RunTick` | app/services/advisory_product_suggestions.py:222-319 | the table after a tick, each status as an if-and-only-if, and every tally |
| `TickInputs.BudgetExactly` | app/services/advisory_product_suggestions.py:256-300 | the loop sees the lines up to the first failing budget check |
| `TickInputs.WorkExactly` | app/services/advisory_product_suggestions.py:260-261 | at most the configured number of lines is worked on, the first ones |
| `TickInputs.ReplacedExactly` | app/advisory/suggestion_sets.py:155-173 | a stored set is replaced for the first of engine, inputs, catalog and supplier rows that changed, and kept if and only if none did |
| `TickInputs.GeneratedIs` | app/advisory/suggestion_sets.py:90-101 | a generated set is the line's own, current and unsynchronized, and holds the engine's answer for the line's own supplier, codes and description |
| `TickMeaning.TickIsTidy` | app/services/advisory_product_suggestions.py:222-306 | after every tick no line has two current sets and every current set of the company is wanted |
| `TickMeaning.TickTransitions` | app/services/advisory_product_suggestions.py:222-306 | history and other companies stay as they are, an unwanted set leaves for its reason, a wanted one stays or is superseded |
| `TickMeaning.TickServes` | app/services/advisory_product_suggestions.py:259-306 | every line the tick came to whose generation did not raise has a current set validated now that no digest distinguishes from a fresh one; generated, failed and revalidated account for every line, and only raising lines fail |
| `TickMeaning.UnchangedIsKept` | app/services/advisory_product_suggestions.py:268-278 | an unchanged set is only revalidated, never regenerated |
| `TickMeaning.ServingIsFresh` | app/advisory/suggestion_sets.py:155-173 | such a set holds what the engine answers from today's catalog and the prior mappings of its generation |
| `TickMeaning.TickGrounds` | app/services/advisory_product_suggestions.py:279-293 | every tick keeps every stored set an answer of the engine from the catalog it was generated from |
| `DisplayProtocol.StepKeeps` | app/composition/advisory_display.py:220-261 | every step of ticks, projections, partial ones included, marker resets and the sweep keeps the invariant, for any budget, unless it is the excluded overlap |
| `DisplayProtocol.StepKeepsExactly` | app/advisory/suggestion_sets.py:196-251 | a step keeps the invariant if and only if it is not that overlap |
| `DisplayProtocol.DisplayNeverStale` | app/advisory/suggestion_sets.py:196-268 | over every run without that overlap in which a complete sweep began at most `budget` ago: nothing shown is older than PROJECTION_CUTOFF plus the budget, and a retired set is gone within the budget |
| `DisplayProtocol.BudgetExact` | app/advisory/suggestion_sets.py:26-33 | DISPLAY_VALIDITY holds on every such run if and only if the budget is at most DISPLAY_SWEEP_INTERVAL |
| `DisplayProtocol.SlowSweepsBreakTheContract` | app/workers/uyumsoft_inbound_poller.py:123-140 | a run whose sweeps begin every interval, all succeed and take positive time, and which shows a set past its validity by that time |
| `DisplayProtocol.SameInstantBreaksTheContract` | app/advisory/suggestion_sets.py:196-251 | a run in which a rollback empties Odoo and resets the markers at the cutoff instant and the sweep of that instant publishes the set and records it as cleared |
| `DisplayOverlap.OverlapIsFatal` | app/advisory/suggestion_sets.py:196-251 | from any reached state an overlap can be followed by a run without overlap that shows a set older than any given age |
| `DisplayOverlap.FatalExactly` | app/advisory/suggestion_sets.py:196-251 | a step leads to a state from which a run without overlap breaks the contract if and only if it is an overlap |
| `DisplayOverlap.GuardedExactly` | app/advisory/suggestion_sets.py:196-251 | a run has no overlap if and only if it keeps the invariant in every state |
| `DisplayOverlap.FirstOverlapIsFatal` | app/advisory/suggestion_sets.py:196-251 | a run with overlaps is without one up to the first, and after that first one a run without another can show a set older than any given age |
| `SweepRefinement.TableStepsAreEvents` | app/persistence/product_line_suggestion_repository.py:128-201 | inserting, retiring and resetting are events of the display protocol on the same table |
| `SweepRefinement.RevalidationIsRun` | app/persistence/product_line_suggestion_repository.py:203-232 | a batch revalidation is a guarded run of single revalidations |
| `SweepRefinement.GroupsAreDue` | app/composition/advisory_display.py:220-230 | the sweep reads exactly the protocol's due groups, in any order of the reviews |
| `SweepRefinement.SuccessOverlapsExactly` | app/composition/advisory_display.py:240-243 | a successful refresh is the overlap of the protocol if and only if it displays a set at its cutoff instant that is marked with it or due and started then |
| `SweepRefinement.WriteOverlapsExactly` | app/composition/advisory_display.py:263-282 | any other projection is the overlap if and only if it displays a set marked with its cutoff instant and no set of the review is unmarked |
| `SweepRefinement.SweepIsRun` | app/composition/advisory_display.py:220-261 | every sweep, with failed, deferred and backing-off reviews or without, is a guarded protocol run that ends in the refresher's table and in exactly the display its calls wrote; its begin counts as the last sweep exactly when every due review was refreshed |
| `SweepRefinement.SweepStaysFresh` | app/composition/advisory_display.py:220-261 | appended to any guarded run, the sweep is again one, and the display its calls left is fresh |
| `TickRefinement.TickIsRun` | app/services/advisory_product_suggestions.py:222-306 | every tick, whatever its outcome, is a guarded protocol run that ends in the worker's table, records what it retired and leaves the display alone |
| `TickRefinement.TickStaysFresh` | app/services/advisory_product_suggestions.py:222-306 | appended to any guarded run, the tick is again one, and what Odoo shows after it is fresh |
| `AdvisoryWorker.JobKeepsSound` | app/composition/advisory.py:253-314 | ticks, sweeps, marker resets and projections keep one current set per line and every set an answer of the engine |
| `AdvisoryWorker.WorkerStaysFresh` | app/composition/advisory.py:253-314 | every sequence of ticks, sweeps, marker resets and projections from an empty table on, without an overlap and with a complete sweep at most the budget ago: the sets they left on display are fresh and retired ones gone within the budget, lines have one current set, and sets are answers of the engine |
| `DisplayReader.ReadViews` | app/composition/advisory_display.py:92-130 | one view per line with exactly one passing set, in line order, and none otherwise |
| `DisplayReader.ReaderPublishes` | app/composition/advisory_display.py:92-130 | what the reader returns is what the step system lets a projection publish |
| `DisplayRefresher.DefaultDelays` | app/composition/advisory_display.py:294-297 | the delays are 60, 120, 240 and then 300 seconds for ever |
| `DisplayRefresher.CalledMeaning` | app/composition/advisory_display.py:232-239 | the reviews called are distinct, due, past their backoff and at most the cap; nothing is deferred below the cap |
| `RetryMeaning.RetryExactly` | app/composition/advisory_display.py:290-298 | over the attempt log: a review may be retried if and only if its delay, doubled by each failure in a row up to the cap, has passed since the last one |
| `RetryMeaning.CalledExactly` | app/composition/advisory_display.py:231-240 | a sweep calls the first ready reviews up to the cap; those backing off are exactly the ones that are not ready |
| `RetryMeaning.OldestFirst` | app/composition/advisory_display.py:226-232 | reviews are taken in the order of their oldest due set |
| `DisplayRefresher.Refresher.RecordSuccess` | app/composition/advisory_display.py:241-244 | the retry entry disappears; entries keep agreeing with the attempt history |
| `DisplayRefresher.Refresher.RecordFailure` | app/composition/advisory_display.py:294-297 | the entry counts consecutive failures and the next allowed time; entries keep agreeing with the attempt history |
| `DisplayRefresher.Refresher.RefreshReview` | app/composition/advisory_display.py:240-247 | success marks the review's due sets that are still the ones read and counts them, failure marks none and backs off; exactly one attempt is added to the review's log |
| `DisplayRefresher.Refresher.Sweep` | app/composition/advisory_display.py:220-261 | due = refreshed + failed + deferred + backing off, at most the cap of distinct calls, no call without due sets, only successes marked, the exact new table and retry entries, and one logged attempt per called review |
| `DisplayRefresher.SweepRepeatedly` | app/composition/advisory_display.py:220-297 | over any sequence of sweeps a retry entry exists exactly when the last attempt failed, counts the failures since the last success and carries the delay of that count |
| `DisplayCleaner.Cleaner.Read` | app/composition/advisory.py:540-552 | a successful read returns what Odoo holds then; it gives up only after the allowed number of failures |
| `DisplayCleaner.Cleaner.ClearRow` | app/composition/advisory.py:554-573 | success empties the row; it gives up only after the allowed number of failures |
| `DisplayCleaner.Cleaner.ClearRows` | app/composition/advisory.py:508-509 | every discovered row is cleared or failed |
| `DisplayCleaner.Cleaner.ClearAndReset` | app/composition/advisory.py:501-519 | markers are reset only after an empty verification read without failed rows, and then every current marker is gone |
| `DisplayCleaner.Cleaner.Confirm` | app/composition/advisory.py:521-536 | incomplete exactly when every confirming read failed; otherwise the report stays complete exactly when Odoo is empty and no current set is marked |
| `DisplayCleaner.Cleaner.Acquire` | app/composition/advisory.py:595-606 | acquired at the first free attempt, failed only when every allowed attempt saw a busy lock; other processes act in between |
| `DisplayCleaner.Cleaner.Apply` | app/composition/advisory.py:487-499 | in every world, a complete report implies Odoo empty, no current set marked at the confirm step and no lasting sweep since the reset; in a quiet world the report is complete |
| `DisplayCleaner.ResetMakesDue` | app/advisory/suggestion_sets.py:254-268 | a reset current set is due at every time |
| `DisplayCleaner.UndoesExactly` | app/persistence/product_line_suggestion_repository.py:181-232 | a marked current set loses its mark if and only if it is retired, or revalidated after it was recorded as cleared |
| `DisplayCleaner.SweepIsDetected` | app/composition/advisory.py:521-535 | a current set refreshed by a sweep since the reset is found marked by the confirming count unless such an event followed |
| `DisplayCleaner.MarkComesFromSweep` | app/composition/advisory.py:521-535 | conversely, a set found marked was refreshed by a sweep since the reset that no such event followed |
| `DisplayCleaner.NoMarkExactly` | app/composition/advisory.py:487-536 | the confirming count is zero if and only if such an event followed every sweep of a current set since the reset |
| `DisplayCleaner.ClearedRevalidationHides` | app/composition/advisory.py:521-535 | the exception happens: an expired set marked as cleared and then revalidated is not found, a younger one is |
| `ProductMatching.LegacyChain` | app/matching/product.py:221-230 | the early-exit loop computes the specified chain outcome |
| `ProductMatching.ChainMeaning` | app/matching/product.py:221-230 | the chain answers with its first probe that is not silent, and nothing exactly when all are |
| `ProductMatching.CombinedMeaning` | app/matching/product.py:252-324 | every status and product as an if-and-only-if over the set of outcomes |
| `ProductMatching.PrimaryIdentity` | app/matching/product.py:292-308 | the first outcome that names a product is the primary identity |
| `ProductMatching.JoinLaws` | app/matching/product.py:252-266 | the join is commutative, associative and idempotent and induces the order |
| `ProductMatching.CombinedIsJoin` | app/matching/product.py:252-324 | combining is the join of the lattice nothing, one product, conflict |
| `ProductMatching.CombinedMonotone` | app/matching/product.py:252-324 | order and repetition never matter, a conflict is never resolved, a matched product is never replaced |
| `ProductMatching.AdvisoryNeverDecides` | app/matching/product.py:292-324 | the advisory outcome changes only the corroboration, and exactly when it uniquely agrees |
| `ProductMatching.ChainOrderExact` | app/matching/product.py:221-230 | swapping two lookups keeps the verdict if and only if one is silent or both agree |
| `ProductMatching.ChainIsOrderDependent` | app/matching/product.py:221-230 | two lookups whose order decides the product |
| `ProductMatching.MatchInvoice` | app/matching/product.py:59-76 | one result per line in order, each the verdict that `LineVerdict.VerdictExactly` describes; failure exactly when some line's lookup fails; no lines reported as such |
| `ProductMatching.SupplierRowDecides` | app/matching/product.py:78-185 | one supplierinfo row leading to one active variant makes the line that variant or ambiguous, the former exactly when no other identity disagrees |
| `LineVerdict.VerdictExactly` | app/matching/product.py:78-185 | the verdict of a line from the repository's answers: ambiguous, matched or not found by which identities take part and what each of them finds |
| `LineVerdict.BuyerCodeDecides` | app/matching/product.py:99-115 | a buyer code with one active product decides over the barcode; the line is that product if and only if no SKU and no supplierinfo row is ambiguous or names another |
| `LineVerdict.PrimaryExactly` | app/matching/product.py:292-308 | which identity a matched line reports |
| `LineVerdict.CarriedExactly` | app/matching/product.py:252-324 | the candidate count of each status, and that only a matched line reports an identity |
| `LineVerdict.RaisedExactly` | app/matching/product.py:78-185 | a line fails if and only if it is answerable and a lookup it needs fails |
| `PartnerMatching.CollectContacts` | app/matching/partner.py:128-130 | the dictionary of lists in first-seen order |
| `PartnerMatching.GroupByCommercialPartner` | app/matching/partner.py:120-141 | one group per canonical partner with its own record; one read by id only for missing ones |
| `PartnerMatching.GroupsPartition` | app/matching/partner.py:120-141 | the groups partition the candidates, counted with multiplicity |
| `PartnerMatching.MatchedExactly` | app/matching/partner.py:23-99 | MATCHED p if and only if there is an active candidate, all belong to p and p's own record proves it; NOT_FOUND exactly without active candidates |
| `PartnerMatching.RowOrderIrrelevant` | app/matching/partner.py:23-99 | the verdict does not depend on the order of the rows |
| `PartnerVerdict.PartnerExactly` | app/matching/partner.py:23-99 | the verdict from the records alone: MATCHED p if and only if some row is active, every active row is p or a contact of p, and p's own record, among them or read by id, is active with the tax number in the company or in none |
| `PartnerVerdict.PartnerRaisedExactly` | app/matching/partner.py:45-69 | the match fails if and only if a lookup it needs fails |
| `PartnerVerdict.MissingExactly` | app/matching/partner.py:120-141 | the batch read asks once for every commercial partner that is not an active row itself |
| `PartnerVerdict.CountExactly` | app/matching/partner.py:71-91 | what an ambiguous match counts |
| `EffectiveSupplier.AcceptedExactly` | app/application/effective_supplier.py:219-247 | a resolution is used if and only if its kind is accepted and its partner proven; a failed read is never "no supplier" |
| `PartnerVerdict.AcceptedOnlyWhenProven` | app/application/effective_supplier.py:219-247 | a resolution is used under its mode's origin if and only if one record of its id is read, its own commercial partner, in the company or in none |
| `PartnerVerdict.OriginExactly` | app/application/effective_supplier.py:224-227 | which remediation modes are accepted, and as which origin |
| `PartnerVerdict.ResolveExactly` | app/application/effective_supplier.py:163-192 | the tax-number match wins when it names a positive partner; otherwise the accepted resolution; otherwise nobody |
| `EffectiveSupplier.LazyAgreesWithEager` | app/application/effective_supplier.py:276-290 | the lazy resolver returns a supplier exactly when the eager rule gives product matching that supplier, and raises exactly when a needed read failed |
| `EffectiveSupplier.ReclassificationAgrees` | app/application/use_cases/effective_decision.py:205-221 | reclassification uses the resolver's supplier if and only if no MATCHED raw result without positive id meets a proven accepted supplier |
| `PartnerVerdict.DisagreeExactly` | app/application/use_cases/effective_decision.py:205-221 | the two differ if and only if the raw result is MATCHED without a positive partner id and a resolution is proven |
| `EffectiveSupplier.MatcherResultsAgree` | app/application/effective_supplier.py:163-192 | on every result of the partner matcher over positive record ids all consumers agree |
| `EffectiveSupplier.MappedLineIsFound` | app/application/effective_supplier.py:258-290 | the line a supplierinfo row was written for becomes that variant or a conflict on reclassification, never not found |
| `MatchedEvidence.MatchedIsPositive` | app/matching/product.py:78-185 | a line is MATCHED exactly when it names a product, and over positive record ids that product is positive |
| `MatchedEvidence.MatchedRequestBuilds` | app/billing/builder.py:101-178 | a clean request whose product evidence comes from the matcher always builds, one faithful line per source line |
| `StaleAgreement.SingleVariantMeaning` | app/advisory/product_suggestions.py:420-425 | T0's variant of a row is the only purchasable one it leads to |
| `StaleAgreement.StaleMeaning` | app/advisory/product_suggestions.py:384-417 | T0 names a product exactly when one row leads to it as the only purchasable variant |
| `StaleAgreement.MatcherMeaning` | app/matching/product.py:138-185 | the matcher names a product exactly when one row leads to it as the only active variant, for every bounded read |
| `StaleAgreement.AgreementExact` | app/advisory/product_suggestions.py:384-425 | both name the same product if and only if the one row leads to a single purchasable variant precisely when it leads to a single active one |
| `StaleAgreement.AgreementSuffices` | app/advisory/product_suggestions.py:420-425 | a row whose active variants are all purchasable leads to the same variants on both sides |
| `StaleAgreement.TwoActiveOnePurchasable` | app/advisory/product_suggestions.py:384-425 | two active variants of which one is purchasable: T0 names it, the matcher does not |

## Left out

- Arithmetic: Decimals are exact reals, not 28-digit contexts; the 40-digit quotients appear as explicit error bounds only in `RateRoundTrip.HubRateRoundTrip`, and the backoff doubling is exact.
- Texts: error, note, reason and summary texts are tagged values; logging, confidence values, verification notes and Turkish messages are not modelled.
- Text processing: regular expressions, Unicode folding, code keys, the extraction of discriminators and similarity are parameters of the engine (`Lexicon`); `strip` removes space, tab, newline and carriage return only.
- Digests: JSON and SHA-256 are functions assumed collision free; product and category ids are assumed unique; prior mappings and the policy are fixed, because no digest covers them.
- Type checks: `isinstance` and `type(x) is int` guards are expressed by the model's types; non-finite Decimals do not exist in it.
- Bill header: UUID, notes, description fallbacks of the header, and the bill's rate field are not carried; the supplier, number, date, currency, company and lines are.
- `DisplayProtocol`: a projection reads and writes at one instant, and a failed one leaves any part of the former display; row updates and clock readings are atomic; the database isolation level and Odoo's own behaviour are environment steps; the sweep cap and backoff appear as sweeps that do not complete; the budget is a hypothesis about the scheduler, not derived from it.
- `DisplayCleaner`: `preview`, delays between attempts and log lines are not modelled; other processes are an arbitrary world of answers and events.
- `DisplayReader.ReadViews`: the index by line number is folded into the gate; the per-reason counters that are only logged are dropped.
- History deletion, the dry-run plan, the paging of pending reviews and the lock implementation are not modelled.
- `AdvisoryTick.RunTick`: the snapshot, the catalog read, the prior mappings and the monotonic budget check are answers of the outside world; display names of products and the generation time are not stored; a tick reads the wall clock once, as the source does.
- `SweepRefinement.SweepIsRun`: nothing else acts during the sweep; interleaving with other flows is the subject of `DisplayProtocol`. A refresh that would be the overlap is excluded, as in the display theorem.
- `AdvisoryWorker.WorkerStaysFresh`: other flows project between jobs; their interleaving with a running sweep is covered by `DisplayProtocol.DisplayNeverStale`.
- `StaleAgreement.MatcherMeaning`: assumes that Odoo hides archived variants from an unfiltered read, as its default does.
- `CustomerInvoiceBuilder`, customer payloads and the move header payload: copying of fields.
- Matching: repository validation of malformed Odoo records is a failed lookup.
- Configuration, API, CLI, migrations, connectors and operator-request channels are not part of this model.
