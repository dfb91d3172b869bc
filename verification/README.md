# A verified model of the development-appraisal platform

This project models the parts of the platform whose mistakes would be hardest to see: the appraisal engine that turns
a development scheme into a land value or a profit, the webhook queue that several processes drain at once, the
canonical text an approved appraisal is hashed from, the reading and judging of outbound addresses, the sign-in and
reset throttles, the PDF slot counter, the open-data cache, and the small allocation and matching loops beside them.

Each file is one module of the same name.

- **The appraisal engine.** `Spend`, `SpendProfile`, `Scheme`, `Absorption` and `Construction` say where every pound of
  cost and every receipt lands on the monthly programme, in the flat, per-line-timed and phased branches. `Facility` is
  the loan: a balance that compounds, takes draws and is paid down by sales but never below nothing. `Engine` is the
  whole appraisal in both site modes, and `CashSeries` the monthly series its rates of return are read from.
  `Yields`, `Valuation`, `Dcf` and `Irr` are the investment side. `Conservation`,
  `Monotone`, `BuildScale`, `PhaseTable`, `Ordering`, `Ledger` and `Sensitivity` hold the results that span all of it.
  `Windows`, `Capitalisation`, `Accounts` and `GridShape` say what the figures are in the input's own fields: which
  month a line falls in, which yield prices which slice of income, what rate the loan is charged, what a cell shows.
  `Rollups` groups the months.
- **Webhook delivery.** `Webhooks` has the two tables with their conditional updates and a step relation over any
  number of workers, each with its own clock, any of which may stop anywhere. `WebhookSafety` has what survives.
- **The approval pin.** `JsonText` quotes and orders strings of UTF-16 units, `StableJson` is the printer,
  `StableJsonLaws` shows that no printed value can be mistaken for the start of another, `StableJsonExact` says exactly
  which values share a text, and `JsonSamples` what the texts are.
- **Outbound addresses.** `Addresses` reads an IPv6 address and classifies bytes, `AddressText` covers every way to
  spell an address, `AddressRefusals` what is turned away, and `AddressBlocks` what the classification amounts to in
  address blocks.
- **Shared counters.** `Throttle` and `ThrottleRuns`, `ReportSlots`, `OpenDataCache`.
- **Exact loops.** `CostPlan` shares a build cost across trades to the penny; `UnitLinks` compares two unit schedules.

Money, areas and rates are exact reals, months are integers, `Math.round` rounds halves up, and exponents are whole.
Code that fills arrays or updates rows in place is a method over arrays or an object's fields, proved equal to a
function; what the code is for is then proved of that function. Concurrent code is a relation between states, one step
for each stretch that runs without interruption, and its results hold after any sequence of steps.

## Where a promise needs a condition

Each of these is a promise that a comment makes, or that a reader would take from the code, and that fails for some
input. The named members give the input, and the exact condition under which the code keeps the promise.

- `packages/appraisal-engine/src/cost-report.ts:288-304` says that with no rate sum the whole figure falls to the last
  line. With rates that cancel it need not (`CostPlan.CancellingRates`); it does exactly when every other line's rate
  times the total rounds to nothing (`CostPlan.WholeFallsToLast`).
- `packages/appraisal-engine/src/engine.ts:73-91` refuses to search when both ends of the range share a sign. A
  cashflow that vanishes exactly at -95% passes that test with a product of zero, and the search can then walk away
  from its root (`Irr.MissedRoot`). `Irr.BracketsStraddle` gives the exact condition under which it does not, and
  `Irr.MissedExactly` reads it off an outlay followed by receipts. The input is one of exact arithmetic: in binary
  floating point 1 + (-0.95) is 0.050000000000000044, and the zero falls on a neighbouring outlay, such as
  19.999999999999982 for a receipt of 1.
- `packages/appraisal-engine/src/engine.ts:707-723` reports a return on cost of zero when there is no cost, so the
  return drops to zero when a profitable scheme becomes free (`Sensitivity.FreeBuildLosesReturn`). A column of the
  return-on-cost grid rises exactly unless land, disposal and other costs are all free, the build step reaches -100%,
  and one cell, the best sales step against the deepest build step short of -100%, makes a profit
  (`Sensitivity.GridColumnsRise`).
- `packages/appraisal-engine/src/engine.ts:887-914` declares return on cost pinned in residual mode, whatever
  happens to values. A scheme whose sales are shocked away altogether shows no return at all
  (`Sensitivity.UnsoldIsUnpinned`), and a grid that steps that far is not pinned (`Sensitivity.UnsoldGridIsUnpinned`).
  A cell shows the pinned value exactly when the scheme's value lets it, as any positive value does
  (`Sensitivity.ReturnPinned`), and the grid exactly when every shocked value does (`Sensitivity.GridPinnedExactly`).
- `packages/appraisal-engine/src/engine.ts:513-653` counts the cost of let space at any size but lays it only above
  0.0001 square feet (`Conservation.SliverIsLost`). `Conservation.SpendConservedExactly` says when spend is conserved.
- `apps/api/src/opendata-cache.ts:92-149` says that a not-found answer is not an outage. That is so of a caller who
  waits; a background refresh starts a cool-off on any failure, and the caller who comes next is refused as if the
  source were down (`OpenDataCache.NotFoundRefused`). `OpenDataCache.NotFoundCools` says exactly which happens.
- `apps/api/src/approval-pin.ts:57-67` gives the same inputs the same text, as it says. The converse, that one text is
  one input, needs plain trees (`StableJsonExact.SameInputsSameText`): a lone `undefined` in an array prints as an
  empty array (`StableJsonExact.LoneUndefinedVanishes`) and a number that is not finite prints as null.

## Model

| member | source | states |
|---|---|---|
| SpendProfile.BuildSpendProfile | packages/appraisal-engine/src/engine.ts:50-67 | the loop that builds a spend profile fills in the profile's weights, for any month count rounded and floored at one |
| SpendProfile.WeightsDistribute | packages/appraisal-engine/src/engine.ts:50-67 | every profile has one positive weight a month and they sum to exactly one |
| SpendProfile.WeightsFollowRamp | packages/appraisal-engine/src/engine.ts:50-67 | after k of n months a profile has spent k/n, k(k+1)/(n(n+1)), its mirror image, or the smoothstep of k/n, whichever was asked for |
| SpendProfile.SpendOrder | packages/appraisal-engine/src/engine.ts:50-67 | after every month, back-loaded spend is behind even spend and even spend behind front-loaded |
| Irr.InternalRate | packages/appraisal-engine/src/engine.ts:73-91 | the early-returning bisection loop answers as a hundred steps of the search would, and gives nothing when both ends share a sign |
| Irr.BracketsStraddle | packages/appraisal-engine/src/engine.ts:73-91 | every bracket the search holds has ends that do not share a strict sign, if and only if no root was missed at -95% |
| Irr.RateIsRoot | packages/appraisal-engine/src/engine.ts:73-91 | unless a root was missed, the rate returned discounts the cashflow to under a pound, or is the middle of a straddling bracket 2.95/2^100 wide |
| Irr.RootRecovered | packages/appraisal-engine/src/engine.ts:73-91 | the rate of an outlay followed by receipts is recovered to 2.95/2^101, or to a pound of present value, unless it was missed |
| Irr.MissedExactly | packages/appraisal-engine/src/engine.ts:73-91 | for an outlay followed by receipts the root is missed if and only if it is -95% itself and the first middle is a pound or more away from nothing |
| Irr.MissedRoot | packages/appraisal-engine/src/engine.ts:73-91 | a cashflow of -20 then 1 earns -95% exactly, and the search reports a positive rate at which 19 is lost |
| Irr.NpvPeels | packages/appraisal-engine/src/engine.ts:73-77 | a cashflow is worth its first flow and the rest discounted one month more |
| Irr.StopsAtAPound | packages/appraisal-engine/src/engine.ts:79-89 | the search answers at the first middle worth less than one pound either way, and otherwise keeps the half whose ends differ in sign |
| Yields.YpYearsIsAnnuity | packages/appraisal-engine/src/engine.ts:160-165 | the closed form for years' purchase equals the year-by-year annuity |
| Yields.TermPlusReversion | packages/appraisal-engine/src/engine.ts:160-165 | a term and the perpetuity deferred behind it make one perpetuity |
| Yields.FactorsAre | packages/appraisal-engine/src/engine.ts:160-165 | at a positive yield the three factors satisfy y x perpetuity = 1 and its like; at none, perpetuity and deferral are nil and one and n years are worth n |
| Valuation.MethodsAgree | packages/appraisal-engine/src/engine.ts:167-256 | at one yield, term-and-reversion and hardcore value every line and the property the same |
| Capitalisation.RentsAre | packages/appraisal-engine/src/engine.ts:176-205 | a line's passing and market rents are count x area x rent, less its void and unrecovered percentages, less its part of the deductions |
| Capitalisation.LineWorth | packages/appraisal-engine/src/engine.ts:206-233 | at positive yields a term is the passing rent year by year at the line's yield, a reversion the market rent for ever at the reversion yield deferred at it, and a hardcore line its passing rent for ever at the line's yield plus the uplift at the reversion yield, deferred |
| Capitalisation.WorthWithoutYield | packages/appraisal-engine/src/engine.ts:160-165 | without a positive yield a perpetuity is worth nothing and n years are n rents |
| Capitalisation.ReversionYieldMoves | packages/appraisal-engine/src/engine.ts:206-233 | moving the reversion yield alone moves no term, and raising it raises no line that reverts to market rent or an uplift |
| Capitalisation.PropertyRents | packages/appraisal-engine/src/engine.ts:176-205 | the property's area and rents are its lines' together, its net rent what they pass less every deduction |
| Capitalisation.PriceIs | packages/appraisal-engine/src/engine.ts:234-256 | the price and the purchaser's costs on it, 6.8% when nothing is said, make up the lines' values less the rent lost while space is let |
| Valuation.DeductionsFullyShared | packages/appraisal-engine/src/engine.ts:202-233 | sharing fixed deductions out by line loses nothing: the lines' net rents add up to the property's |
| Valuation.EquivalentYield | packages/appraisal-engine/src/engine.ts:266-286 | eighty halvings keep a bracket 0.399/2^80 wide around where the value curve meets the capital value |
| Valuation.BisectionFindsRoot | packages/appraisal-engine/src/engine.ts:266-286 | on a falling curve, the middle of such a bracket is within half its width of the rate sought |
| Valuation.EquivalentYieldRecovered | packages/appraisal-engine/src/engine.ts:266-286 | when one yield was used throughout, the equivalent yield is within 0.399/2^81 of it |
| Capitalisation.CurveIsRevaluation | packages/appraisal-engine/src/engine.ts:266-286 | at every yield the search compares the price with the same property revalued at that yield throughout |
| Dcf.ComputeRent | packages/appraisal-engine/src/engine.ts:338-374 | one pass over the lines gives the year's rent and whether any line was reviewed |
| Dcf.Build | packages/appraisal-engine/src/engine.ts:326-425 | the year loop gives every row, the present values of the income and the sale, and the net present value; the exit is the rent of the year after the last, over the exit yield, less exit costs |
| Dcf.LineRule | packages/appraisal-engine/src/engine.ts:338-374 | a line passes its rent until its first review; in a year r it is reviewed, at that review and every cycle after, its rent is net rental value x (1 + growth)^r, and in any other year it is the rent of the year before |
| Dcf.LinesAdd | packages/appraisal-engine/src/engine.ts:338-374 | the property's rent is its lines' together, and a year is a review year if and only if one of them is reviewed |
| Dcf.UnreviewedKeepsRent | packages/appraisal-engine/src/engine.ts:338-374 | for any growth, a row not reported as reviewed has the rent of the row before |
| Dcf.RentBegins | packages/appraisal-engine/src/engine.ts:338-374 | before any review the rent is what passes |
| Dcf.DiscountedCashflow | packages/appraisal-engine/src/engine.ts:326-425 | from the input's own percentages and years to the rows, the exit, the net present value and the equated yield, found on a curve that at the input's own rate is that net present value |
| Dcf.IncomeAddsUp | packages/appraisal-engine/src/engine.ts:355-374 | the present value of the income is the rows' discounted rents added up |
| Dcf.DcfReconciles | packages/appraisal-engine/src/engine.ts:338-374 | with nil growth, no uplift, no exit costs and one rate, every hold period is worth rent over yield |
| Dcf.EquatedYield | packages/appraisal-engine/src/engine.ts:380-393 | ninety halvings keep a bracket 0.5995/2^90 wide on the discounted value of the purchase |
| Dcf.EquatedYieldRecovered | packages/appraisal-engine/src/engine.ts:380-393 | on the valuation's own terms the equated yield is within 0.5995/2^91 of its yield |
| Absorption.AbsorptionShare | packages/appraisal-engine/src/engine.ts:495-509 | the selling loop gives each month's share: what the rate allows until the units run out, or equal shares |
| Absorption.SoldShareExact | packages/appraisal-engine/src/engine.ts:495-509 | exactly the lesser of one and 24 x rate / units sells under absorption, and everything otherwise |
| Absorption.MonthsExact | packages/appraisal-engine/src/engine.ts:495-509 | with a rate, the months are the fewest that hold the units, at most 24; without, the stated months rounded, one for nothing, inside one and the cap |
| Absorption.SharesRun | packages/appraisal-engine/src/engine.ts:495-509 | after k months the lesser of k x rate and all the units has sold, or k equal parts |
| Scheme.SalesFollowBuild | packages/appraisal-engine/src/engine.ts:554-581 | every programme has a month of building and a month after it to sell in |
| Construction.LayConstruction | packages/appraisal-engine/src/engine.ts:583-653 | the branch the scheme calls for fills the monthly array with that branch's spend |
| Construction.LayPhases | packages/appraisal-engine/src/engine.ts:589-635 | each phase on its own clock, then the held element, then the scheme's own costs, give the phased series |
| Construction.LayTimed | packages/appraisal-engine/src/engine.ts:638-653 | laying trades, marking them up for fees and contingency and adding other costs gives the timed series |
| Windows.CostFalls | packages/appraisal-engine/src/engine.ts:601-606 | one more cost on a phased or timed scheme changes no month outside its own, from its start rounded and clamped to the programme for its months rounded and clamped to what is left, and its amount runs through them on its own profile; month 1, the build period and the scheme's profile stand in for what it leaves out |
| Windows.TradeFalls | packages/appraisal-engine/src/engine.ts:642-651 | one more trade on a timed scheme falls in the same way, at its rate over the gross area with fees and contingency |
| Windows.UntimedFalls | packages/appraisal-engine/src/engine.ts:636-637 | with no phases and nothing timed, the construction total runs on the scheme's profile from month 1 to the end of the build |
| Windows.PhaseCostFalls | packages/appraisal-engine/src/engine.ts:627-629 | one more cost of a phase falls in its own months counted from the phase's first on site, and nowhere else |
| Windows.PhaseTradeFalls | packages/appraisal-engine/src/engine.ts:611-621 | one more trade of a phase with timed trades of its own falls in its own months counted likewise, at its rate over the phase's gross area with the phase's on-costs |
| Windows.PhaseBuildFalls | packages/appraisal-engine/src/engine.ts:622-624 | a phase with nothing timed runs its whole build over its own months on the scheme's profile |
| Windows.HeldFalls | packages/appraisal-engine/src/engine.ts:631-634 | let space beyond the cut-off runs its build over the whole build period |
| Construction.SpreadsProper | packages/appraisal-engine/src/engine.ts:583-653 | in every branch every cost is laid inside months 1..totalMonths, on non-negative weights that sum to one |
| Conservation.SpendConserved | packages/appraisal-engine/src/engine.ts:513-653 | for every input the months add up to build, fees, contingency and other costs, less what the area cut-off drops |
| Conservation.SpendConservedExactly | packages/appraisal-engine/src/engine.ts:513-653 | spend is conserved if and only if no phased scheme has let space, at a price, whose gross area is under the cut-off and not nil |
| Conservation.SliverIsLost | packages/appraisal-engine/src/engine.ts:631-634 | a one-phase scheme with 0.00005 square feet of let space loses its cost from the programme |
| Conservation.HeldAreaIsUnphased | packages/appraisal-engine/src/engine.ts:554-581 | the area no phase carries is exactly the gross area of the let space |
| Engine.LayReceipts | packages/appraisal-engine/src/engine.ts:661-682 | the three receipts loops, the month guard and the plain assignment fill the array: phases as they complete, the held element in equal parts at the end, or the sales spread |
| Windows.SalesArrive | packages/appraisal-engine/src/engine.ts:680-682 | with no phases, everything net of disposal arrives in the months after the build, as the units sell |
| Windows.PhaseSalesArrive | packages/appraisal-engine/src/engine.ts:667-673 | a phase's sales net of disposal arrive in the months after it completes, as its own units sell |
| Windows.HeldSaleArrives | packages/appraisal-engine/src/engine.ts:674-679 | let space in a phased scheme is sold in equal parts over the months after the last phase completes |
| Engine.ComputeAppraisal | packages/appraisal-engine/src/engine.ts:470-801 | running the branches, the facility and the solve gives the appraisal's figures and phase rows, and on request the ledger, the peak and both annual rates of return |
| Accounts.UnphasedAreas | packages/appraisal-engine/src/engine.ts:478-491 | the areas and values of a scheme without phases, from its units and let space; efficiency is a percentage, none counts as a hundred, and a negative one is ignored |
| Accounts.UnphasedCosts | packages/appraisal-engine/src/engine.ts:552-565 | building a scheme without phases costs the trades' rates, shocked, over the gross area, and its two percentages |
| Accounts.UnphasedProgramme | packages/appraisal-engine/src/engine.ts:567-581 | the build is the months given, 12 for none, inside 4 and 22, and the sales after it as long as the units take |
| Accounts.PhaseRowAddsUp | packages/appraisal-engine/src/engine.ts:513-549 | a phase's row from what the phase says of itself: its own trades and percentages or the scheme's, its start inside 1 and 240, its build inside 1 and 60 |
| Accounts.PhasedTotals | packages/appraisal-engine/src/engine.ts:552-581 | a phased scheme's totals are its rows and its let space column by column, the space at the scheme's own rate and percentages |
| Accounts.SolveReconciles | packages/appraisal-engine/src/engine.ts:706-725 | cost, land, profit, equity and the three returns each from the others and the input's percentages, in both site modes |
| PhaseTable.RowsAccount | packages/appraisal-engine/src/engine.ts:513-580 | the reported phase rows and the let space make up the sales value, the gross area and, with the scheme's own costs, the construction cost, whatever rates the phases carry |
| PhaseTable.RowsSetProgramme | packages/appraisal-engine/src/engine.ts:513-600 | no reported phase completes after the build period or sells past the programme, and some phase sets each |
| Engine.WriteLedger | packages/appraisal-engine/src/engine.ts:763-775 | the cash loop writes each month's cost, interest, receipts, net and running total, land in month one |
| Accounts.RowAddsUp | packages/appraisal-engine/src/engine.ts:763-775 | a row is its month's spend, with land in the first, its interest and its receipts, and the running total carries on from the row before |
| CashSeries.LayGeared | packages/appraisal-engine/src/engine.ts:783-791 | the equity loop takes land and the unlent share of spend, and pays equity what receipts leave once the debt is served |
| CashSeries.UngearedTo | packages/appraisal-engine/src/engine.ts:780-782 | at every month the project series has added up to receipts less spend less land |
| CashSeries.GearedTo | packages/appraisal-engine/src/engine.ts:783-791 | at every month the equity series has added up to receipts less its share of spend, land and the debt, plus the debt left |
| CashSeries.DebtLeftIs | packages/appraisal-engine/src/engine.ts:785-791 | with receipts that are never negative, the debt left is what they have not yet come to, and never less than nothing |
| CashSeries.AnnualRate | packages/appraisal-engine/src/engine.ts:93-94 | a monthly rate r annualises to (1 + r)^12 - 1 and none to none: always more than total loss, and at least twelve times a positive rate |
| Accounts.SeriesAre | packages/appraisal-engine/src/engine.ts:776-791 | land goes out first; then the project keeps receipts less spend, and equity receipts less what they serve of the debt less the unlent share of spend, the debt being all that is lent and every month's interest |
| Accounts.CashShows | packages/appraisal-engine/src/engine.ts:792-799 | the cash view is the ledger, the highest balance and each series' monthly rate over twelve months |
| Facility.RunFacility | packages/appraisal-engine/src/engine.ts:687-703 | the facility loop gives monthly interest, total interest, peak debt, total drawn and final balance |
| Accounts.FacilityRuns | packages/appraisal-engine/src/engine.ts:654-702 | twelve times a month's interest is `ratePct` per cent of what the month before closed at; `ltcPct` per cent of the spend is drawn, and receipts go to the debt |
| Accounts.DebtCompounds | packages/appraisal-engine/src/engine.ts:654-702 | a debt left alone for k months is multiplied by (1 + ratePct/1200)^k |
| Accounts.FacilitySized | packages/appraisal-engine/src/engine.ts:703-705 | the interest reported is the ledger's, the facility its highest closing balance, and the fee `arrangementFeePct` per cent of that |
| Facility.BalanceNonNegative | packages/appraisal-engine/src/engine.ts:687-703 | the balance is never negative |
| Facility.MoneyConserved | packages/appraisal-engine/src/engine.ts:687-703 | for any draws and receipts, drawn plus interest is repaid plus still owed |
| Facility.PeakIsMaximum | packages/appraisal-engine/src/engine.ts:687-703 | the reported facility is the maximum closing balance, and is reached |
| Facility.BalanceClosedForm | packages/appraisal-engine/src/engine.ts:687-703 | each balance is the larger of nothing and the largest compounded run of draws less receipts that ends there |
| Facility.LargestSuffixIsLargest | packages/appraisal-engine/src/engine.ts:687-703 | that largest run is at least every run and is one of them |
| Facility.LessSpendMoreSalesCheaper | packages/appraisal-engine/src/engine.ts:687-703 | smaller draws and larger receipts, month by month, never raise a balance, the interest or the peak |
| Facility.LaterSpendCheaper | packages/appraisal-engine/src/engine.ts:687-703 | the same receipts with spend that runs behind until sales start never raise a balance, the interest or the peak |
| Monotone.ConstructionCheapens | packages/appraisal-engine/src/engine.ts:583-653 | in every branch a lower build multiplier lowers, or leaves, every month's spend |
| Monotone.ReceiptsRise | packages/appraisal-engine/src/engine.ts:661-682 | a higher sales multiplier raises, or leaves, every month's receipts |
| Monotone.FinanceFalls | packages/appraisal-engine/src/engine.ts:583-703 | better sales and a cheaper build never make the loan or its cost dearer, in any branch |
| Sensitivity.ResidualIdentity | packages/appraisal-engine/src/engine.ts:707-723 | in residual mode total cost is value less target profit |
| Sensitivity.ReturnPinned | packages/appraisal-engine/src/engine.ts:887-914 | residual mode shows a return on cost of t/(1-t), whatever happens to costs, if and only if the value lets it; any positive value does |
| Sensitivity.UnsoldIsUnpinned | packages/appraisal-engine/src/engine.ts:887-914 | a residual scheme with a 20% target returns the pinned quarter as it stands, and nothing when its sales are shocked away |
| Sensitivity.UnsoldGridIsUnpinned | packages/appraisal-engine/src/engine.ts:887-941 | so its return-on-cost grid over sales steps of -100% and nothing is declared pinned and is not |
| Sensitivity.GridPinnedExactly | packages/appraisal-engine/src/engine.ts:887-941 | in residual mode every cell of the return-on-cost grid shows t/(1-t) if and only if every shocked value lets it |
| Sensitivity.StructureHolds | packages/appraisal-engine/src/engine.ts:887-941 | for every input a metric that is not free to vary shows t/(1-t), the target's share of the column's value, or `landFixed`, in every cell; only the first needs the values to let it |
| Sensitivity.ResidualRises | packages/appraisal-engine/src/engine.ts:707-723 | through the whole finance loop, better sales and a cheaper build never lower what is left for land |
| Sensitivity.ProfitRises | packages/appraisal-engine/src/engine.ts:707-723 | likewise for profit when the land price is fixed |
| Sensitivity.ReturnRisesWithSales | packages/appraisal-engine/src/engine.ts:707-723 | return on cost never falls as sales rise |
| Sensitivity.ReturnRisesAsBuildFalls | packages/appraisal-engine/src/engine.ts:707-723 | return on cost does not fall as build cost falls, if and only if not all of: land, disposal and other costs free, the build multiplier nil, the dearer scheme profitable |
| Sensitivity.FreeExactly | packages/appraisal-engine/src/engine.ts:707-723 | a scheme costs nothing if and only if its sales, its construction and its land each cost nothing |
| BuildScale.BuildCostScales | packages/appraisal-engine/src/engine.ts:513-580 | build with its fees and contingency is in proportion to the build multiplier, over phases with their own rates and the rest of the scheme |
| Sensitivity.FreeBuildLosesReturn | packages/appraisal-engine/src/engine.ts:707-723 | a scheme worth £2 whose only cost is £1 returns exactly 100%, and exactly nothing once that £1 is shocked away |
| Sensitivity.GridRowsRise | packages/appraisal-engine/src/engine.ts:917-941 | left to right no cell of the moving metric falls, for any ascending steps and every scheduling branch |
| Sensitivity.GridColumnsRise | packages/appraisal-engine/src/engine.ts:917-941 | down a column no cell falls; for return on cost, if and only if the bottom row is not altogether free, or the best sales step against the deepest build step above -100% makes no profit |
| Sensitivity.PaidColumnsRise | packages/appraisal-engine/src/engine.ts:917-941 | land that was paid for, disposal or other costs, or a lowest step above -100%, is enough for every column to rise |
| GridShape.GridShows | packages/appraisal-engine/src/engine.ts:917-941 | rows run from the last build step down and columns from the first sales step across; a cell shows the appraisal at its two steps, marks the base and compares with it |
| GridShape.DeclaredTightly | packages/appraisal-engine/src/engine.ts:887-915 | what is not declared pinned is not: a metric declared to follow sales moves with them, and one declared to vary moves with build cost too |
| GridShape.PreferredVaries | packages/appraisal-engine/src/engine.ts:887-915 | the metric the grid prefers is one that is free to vary |
| Ordering.FinanceOrder | packages/appraisal-engine/src/engine.ts:637-703 | for an unphased, untimed scheme every balance, month's interest and peak satisfy front at least even at least back |
| Ordering.ResidualOrder | packages/appraisal-engine/src/engine.ts:637-718 | so the arrangement fee orders the same way and residual land value the other |
| Ordering.AheadCostsMore | packages/appraisal-engine/src/engine.ts:681-703 | of any two profiles, the one whose cumulative spend runs ahead never owes less or pays less interest |
| Ordering.AheadLeavesLess | packages/appraisal-engine/src/engine.ts:681-718 | and never leaves more for land |
| Ordering.AheadEarnsLess | packages/appraisal-engine/src/engine.ts:681-723 | with the land price fixed, the profile whose spend runs ahead never earns more |
| Ordering.ProfitOrder | packages/appraisal-engine/src/engine.ts:637-723 | so in profit mode profit satisfies front at most even at most back |
| Ledger.ReceiptsTotal | packages/appraisal-engine/src/engine.ts:661-682 | receipts add up to value net of disposal less exactly what is left unsold |
| Ledger.LedgerCloses | packages/appraisal-engine/src/engine.ts:707-775 | for every input and both site modes the last cumulative row is profit plus arrangement fee, less what is unsold, plus what the cut-off drops |
| Ledger.SoldOut | packages/appraisal-engine/src/engine.ts:495-509 | when every share sold is one and the held value is not negative, nothing is unsold |
| Ledger.LedgerClosesOnProfit | packages/appraisal-engine/src/engine.ts:763-775 | then the ledger ends at profit plus the arrangement fee |
| Ledger.ProjectCloses | packages/appraisal-engine/src/engine.ts:763-782 | for every input the project series adds up to the ledger's close with the interest put back |
| Ledger.EquityCloses | packages/appraisal-engine/src/engine.ts:763-791 | for every input the equity series adds up to the ledger's close plus whatever debt the receipts never reached |
| Rollups.RollUpCashflow | packages/appraisal-engine/src/rollups.ts:157-203 | the loop groups the months into periods, the last perhaps a stub |
| Rollups.PeriodsSpan | packages/appraisal-engine/src/rollups.ts:157-203 | every period but the last covers one month, three or twelve, and the last what is left |
| Rollups.PeriodsAddUp | packages/appraisal-engine/src/rollups.ts:157-203 | a period of one month is that month, and one month more adds its flows and closes on its position |
| Rollups.TotalsKept | packages/appraisal-engine/src/rollups.ts:157-203 | every column keeps its total exactly, for any period length |
| Rollups.BalancesRun | packages/appraisal-engine/src/rollups.ts:157-203 | each period closes on the one before plus its own net, starts the month after it, and the last closes where the months do |
| Rollups.LedgerRuns | packages/appraisal-engine/src/rollups.ts:157-203 | the appraisal's own ledger is a running ledger from nothing, so its roll-ups close as it does |
| CostPlan.TradeBudgets | packages/appraisal-engine/src/cost-report.ts:288-304 | the loop rounds every line but the last and gives the last what remains |
| CostPlan.BudgetsExact | packages/appraisal-engine/src/cost-report.ts:288-304 | for any rates the budgets add up to the build cost in whole pence, which is within half a penny of it |
| CostPlan.BudgetsProportional | packages/appraisal-engine/src/cost-report.ts:288-304 | every line but the last is within half a penny of its share, the last within (n-1)/2 pence |
| CostPlan.BudgetsNearShare | packages/appraisal-engine/src/cost-report.ts:288-304 | without dividing: a line's pence times the rate sum is the total times its rate, to half the sum |
| CostPlan.WholeFallsToLast | packages/appraisal-engine/src/cost-report.ts:288-304 | with rates that sum to nothing, the whole falls to the last line if and only if every other rate times the total is at least -0.5 and under 0.5 |
| CostPlan.CancellingRates | packages/appraisal-engine/src/cost-report.ts:288-304 | with rates that cancel the first line takes everything |
| UnitLinks.LinksAccepted | apps/api/src/extraction-unit-links.ts:5-17 | a save is accepted if and only if every link is to a known unit and no two claim the same one |
| UnitLinks.CompareExtractionUnits | apps/api/src/extraction-unit-links.ts:22-45 | the count maps, the matched set and the row list give the comparison, and a phased scheme none |
| UnitLinks.PairsExactly | apps/api/src/extraction-unit-links.ts:22-45 | an original and a saved unit pair if and only if they carry one id that occurs once on each side |
| UnitLinks.RowsAccounted | apps/api/src/extraction-unit-links.ts:22-45 | originals come first, once each and in order, and the rows number originals plus saved less pairs |
| UnitLinks.PairedRowShows | apps/api/src/extraction-unit-links.ts:22-45 | an original's row shows it, the saved unit it pairs with, and whether any value the two carry differs |
| UnitLinks.UnpairedRowShows | apps/api/src/extraction-unit-links.ts:22-45 | an original that pairs with nothing is shown alone |
| UnitLinks.LeftoverRowShows | apps/api/src/extraction-unit-links.ts:22-45 | a row after the originals shows one saved unit, alone, that pairs with none of them |
| UnitLinks.SavedShownOnce | apps/api/src/extraction-unit-links.ts:22-45 | every saved unit is on exactly one row |
| UnitLinks.AcceptedLinksPair | apps/api/src/extraction-unit-links.ts:5-45 | an accepted link whose id the extraction gave once does pair |
| Webhooks.DeliveryStore.Claim | apps/api/src/webhook-delivery.ts:301-308 | the claim moves the due time of a row only if it is pending, due and on the attempt the worker saw |
| Webhooks.DeliveryStore.Complete | apps/api/src/webhook-delivery.ts:330-350 | an outcome is written only to a row that still carries exactly this claim: delivered on an answer from 200 to 299, failed at the fourth attempt, otherwise pending and due after 30, 300 or 1800 seconds |
| Webhooks.DeliveryStore.Record | apps/api/src/webhook-delivery.ts:254-270 | a success clears the count, a failure raises it by one, the endpoint stops being active exactly on a failure at the limit of the count as loaded, and no other endpoint changes |
| Webhooks.FailuresPark | apps/api/src/webhook-delivery.ts:229-270 | a run of failures parks an endpoint at the twentieth and no sooner, and a success in between starts the count again |
| Webhooks.DeliveryStore.PruneOlder | apps/api/src/webhook-delivery.ts:115-124 | a delivery stays if and only if it is pending or not old enough, those that stay are unchanged, and the count is how many went |
| Webhooks.DeliveryStore.RemoveEndpoint | apps/api/src/routers/org.ts:1010-1013 | removing an endpoint takes its deliveries, whatever their status, and nobody else's |
| Webhooks.DeliveryStore.Attempt | apps/api/src/webhook-delivery.ts:299-353 | one candidate undisturbed: claimed, completed and recorded by the same band of answers, or left alone when not claimable |
| WebhookSafety.TokenAdvances | apps/api/src/webhook-delivery.ts:297-353 | a step that changes a row moves (attempts, nextAttemptAt) strictly forward |
| WebhookSafety.RowsOnlyAdvance | apps/api/src/webhook-delivery.ts:115-124 | over any stretch of any run the token never goes back, a finished row stays as it was, and a row is gone only if it had finished and was swept or its endpoint was removed |
| WebhookSafety.EndpointsOutlive | apps/api/src/routers/org.ts:1010-1013 | in every run a delivery in the table has its endpoint, so whatever a drain selects has one |
| WebhookSafety.InvKept | apps/api/src/webhook-delivery.ts:279-355 | no step of any worker, crash, sweep or clock breaks the invariant the results below rest on |
| WebhookSafety.ClaimsAreFenced | apps/api/src/webhook-delivery.ts:301-308 | no two claims on a delivery carry one token, they are strictly ordered, and a second claim on one attempt waits out the first's lease |
| WebhookSafety.OnlyLatestClaimantRecords | apps/api/src/webhook-delivery.ts:332-350 | whoever records an outcome made the latest claim on that delivery |
| WebhookSafety.AttemptsAreOutcomes | apps/api/src/webhook-delivery.ts:330-350 | the attempts of a delivery are its recorded outcomes, at most four, and it is delivered if and only if one of them was an answer from 200 to 299 |
| WebhookSafety.LastAnswerDecides | apps/api/src/webhook-delivery.ts:330-350 | over every run a row is delivered if and only if its last recorded answer was from 200 to 299; any other, or none, leaves it pending before the fourth attempt and failed at it |
| WebhookSafety.UntriedIsPending | apps/api/src/webhook-delivery.ts:330-350 | over every run a row with no recorded answer is pending and has no attempts |
| WebhookSafety.CountsFollowAnswers | apps/api/src/webhook-delivery.ts:254-270 | recording an answer from 200 to 299 clears its endpoint's count and anything else raises it by one, parking it at the twentieth |
| WebhookSafety.ClaimsTakeWhatIsDue | apps/api/src/webhook-delivery.ts:279-308 | what a claim takes was pending, due and short of four attempts |
| WebhookSafety.NothingDueIsPassedOver | apps/api/src/webhook-delivery.ts:290-295 | over every run a select picks a pending row whose time has come, unless fifty as old are picked |
| WebhookSafety.PicksAreOldestFirst | apps/api/src/webhook-delivery.ts:290-295 | a batch is at most fifty rows, once each, oldest first, as they and their endpoints' counts stood |
| WebhookSafety.BeginsClean | apps/api/src/routers/org.ts:983-1002 | a delivery begins pending and due at once, and an endpoint begins, and is resumed, active with no failures |
| WebhookSafety.DeliveredOnce | apps/api/src/webhook-delivery.ts:332-350 | a success is the last outcome ever recorded for its delivery, whether or not the row is still there |
| WebhookSafety.RetriesAreSpaced | apps/api/src/webhook-delivery.ts:82-86 | attempts two, three and four are claimed at least 30, 300 and 1800 seconds after the failure before |
| JsonText.ReadsBack | apps/api/src/approval-pin.ts:57-67 | a quoted string reads back to itself and to exactly what followed it |
| JsonSamples.UnitsEscape | apps/api/src/approval-pin.ts:57-67 | which units are escaped and how: the quote, the backslash, five short forms, a lower-case \u escape for other controls and lone surrogates, and nothing else |
| JsonSamples.BodyEscapes | apps/api/src/approval-pin.ts:57-67 | a string is its units escaped one by one, but that a high and a low half together stand as they are |
| JsonSamples.KeysCompare | apps/api/src/approval-pin.ts:57-67 | keys are ordered by the first unit in which they differ, and a key before any longer one it begins |
| JsonSamples.ScalarsPrint | apps/api/src/approval-pin.ts:57-67 | the texts of null, undefined, true, false, a number, a string and the two empties |
| JsonSamples.ArrayPrints | apps/api/src/approval-pin.ts:57-67 | an array prints its items in order in brackets, a comma between, undefined as null unless it is alone |
| JsonSamples.ObjectPrints | apps/api/src/approval-pin.ts:57-67 | an object prints its defined entries in braces, each a quoted key, a colon and its value, in ascending order of key |
| StableJsonLaws.PrintsAreClear | apps/api/src/approval-pin.ts:57-67 | no printed value can be taken for the start of another |
| StableJsonExact.OrderIsUnique | apps/api/src/approval-pin.ts:57-67 | a set of keys has one order, whatever sorts it |
| StableJsonExact.SamePrints | apps/api/src/approval-pin.ts:57-67 | values that are the same up to key order and the coincidences listed print the same text |
| StableJsonExact.PrintsSame | apps/api/src/approval-pin.ts:57-67 | values that print the same text are the same in that sense, at every depth |
| StableJsonExact.TextIsCanonical | apps/api/src/approval-pin.ts:57-67 | one text if and only if the same value |
| StableJsonExact.SameInputsSameText | apps/api/src/approval-pin.ts:57-67 | for plain trees and an injective number printer: one text if and only if equal up to key order and undefined-valued keys |
| StableJsonExact.LoneUndefinedVanishes | apps/api/src/approval-pin.ts:57-67 | an array holding only undefined prints as the empty array |
| StableJsonExact.PinnedInputs | apps/api/src/approval-pin.ts:69-70 | short of a collision on two texts, the hash is unchanged if and only if the inputs are |
| Addresses.V6Bytes | apps/api/src/outbound.ts:46-85 | the loop fills a buffer with the bytes the text denotes, or gives nothing |
| AddressText.SpellingReads | apps/api/src/outbound.ts:46-85 | every spelling, full groups in any case and padding, a `::` over any run, a dotted quad at the end, reads back to the bytes it denotes |
| AddressText.SpellingsAgree | apps/api/src/outbound.ts:116-140 | two spellings of one address are read and judged the same |
| AddressRefusals.GroupsDecide | apps/api/src/outbound.ts:58-72 | text is an address if and only if it is eight groups, or at most eight around one `::`, each with a value |
| AddressRefusals.WordReads | apps/api/src/outbound.ts:71-72 | a group of hexadecimal digits is its value up to 0xFFFF and refused above it |
| AddressRefusals.NumberReads | apps/api/src/outbound.ts:71 | a number is read past white space, a sign and an 0x, and whatever follows its digits is ignored |
| AddressRefusals.SecondGapRefused | apps/api/src/outbound.ts:58-59 | a second `::` is refused wherever it stands |
| AddressRefusals.QuadDecides | apps/api/src/outbound.ts:52-56 | after the right number of groups a dotted ending makes an address if and only if it is IPv4 |
| AddressRefusals.QuadPrints | apps/api/src/outbound.ts:53-54 | the endings that are IPv4 are exactly four numbers up to 255, without leading zeros, which print back as they were written |
| AddressBlocks.EveryAddressReads | apps/api/src/outbound.ts:46-85 | any sixteen bytes can be written in full and read back |
| AddressBlocks.ReservedIsBlocks | apps/api/src/outbound.ts:88-105 | an IPv4 address is refused if and only if it lies in one of fourteen blocks |
| AddressBlocks.PublicIsBlocks | apps/api/src/outbound.ts:116-140 | the ordered byte tests amount to judging a wrapped address as its IPv4 and any other by six blocks |
| AddressBlocks.WrappedIsJudgedAsInner | apps/api/src/outbound.ts:116-140 | however it is written, an IPv4-mapped, NAT64 or 6to4 address is judged exactly as the IPv4 address in it |
| Throttle.ThrottleStore.CheckLockout | apps/api/src/auth/password.ts:53-59 | locked if and only if the row's lock is still ahead, with the minutes left rounded up |
| Throttle.ThrottleStore.RecordFailure | apps/api/src/auth/password.ts:61-84 | three statements, one transaction: an expired lock is forgotten, the failure counted, a lock set at five |
| Throttle.ThrottleStore.TooManyResetRequests | apps/api/src/auth/password.ts:119-137 | undisturbed, the two statements reset an expired window, count the request and allow the first three |
| Throttle.FailureLocks | apps/api/src/auth/password.ts:61-84 | a failure leaves five counted if and only if it leaves a lock, and never moves or clears a lock in force |
| Throttle.FifthFailureLocks | apps/api/src/auth/password.ts:61-84 | after any run of failures the row is in closed form: the fifth set a lock for fifteen minutes and later ones did not extend it |
| Throttle.ExpiryStartsAgain | apps/api/src/auth/password.ts:61-84 | the first failure after the lock ran out counts one |
| ThrottleRuns.GuessesAreBounded | apps/api/src/routers/auth.ts:84-122 | with n sign-ins in flight, however they interleave, at most n + 4 wrong passwords are tried before a lock ends, besides those whose recording failed |
| ThrottleRuns.BoundIsReached | apps/api/src/routers/auth.ts:84-122 | the bound is the best there is: from a clean row n sign-ins can try n + 4 |
| ThrottleRuns.ResetsAreRationed | apps/api/src/auth/password.ts:119-137 | however callers interleave, no window allows more than three and windows start at least fifteen minutes apart |
| ThrottleRuns.FirstThreeAllowed | apps/api/src/auth/password.ts:119-137 | a request is allowed if and only if its window has not allowed three already |
| ThrottleRuns.WindowsOpen | apps/api/src/auth/password.ts:119-137 | a window opens when nothing is counted or fifteen minutes after the last one opened, and not before |
| ReportSlots.Slots.Admit | apps/api/src/report-capacity.ts:22-25 | a job is admitted if and only if a slot is free to its kind |
| ReportSlots.Slots.Release | apps/api/src/report-capacity.ts:32-37 | the counters go down once for a job, however often release is called |
| ReportSlots.SlotsAreAccounted | apps/api/src/report-capacity.ts:4-76 | in every interleaving the counters are the admitted jobs that have not released, at most two, at most one public |
| ReportSlots.ReleasesAreEarned | apps/api/src/report-capacity.ts:32-60 | a job releases at most once, and only when its context or the browser has closed or it never had one |
| ReportSlots.StepsRunOut | apps/api/src/report-capacity.ts:50-75 | every step a job takes leaves it waiting on less, so it takes at most ten |
| ReportSlots.QuietJobsReleased | apps/api/src/report-capacity.ts:38-60 | a job waiting on nothing has released, if and only if its context or the browser did close |
| ReportSlots.DeadlineCloses | apps/api/src/report-capacity.ts:38-75 | past its deadline a job that has a context is closing it |
| ReportSlots.LateContextsClose | apps/api/src/report-capacity.ts:50-75 | a context that arrives after the deadline is closed and never rendered in |
| ReportSlots.CleanupsHaveCauses | apps/api/src/report-capacity.ts:38-60 | the browser is closed only once the context would not close, and a job is stuck only when neither would |
| OpenDataCache.Cache.Look | apps/api/src/opendata-cache.ts:92-129 | from a read row to an answer, a refusal or a fetch, marking the key when a refresh starts |
| OpenDataCache.ServedWasFetched | apps/api/src/opendata-cache.ts:92-160 | in every interleaving each value served is an answer some fetch for that key returned |
| OpenDataCache.EvidenceIsKept | apps/api/src/opendata-cache.ts:92-160 | a stored row changes only to a fetched answer, goes only to the sweep, and no failed fetch touches it |
| OpenDataCache.ReadsSeeStored | apps/api/src/opendata-cache.ts:92-97 | a caller's read finds the row as stored, unless the read fails |
| OpenDataCache.FetchedIsStored | apps/api/src/opendata-cache.ts:130-160 | what a fetch returned is stored under its key at the time of writing unless the write fails, and a caller who waited gets it as fresh either way |
| OpenDataCache.SuccessEndsCooling | apps/api/src/opendata-cache.ts:130-149 | a fetch that answers ends the cool-off of its key, whoever asked |
| OpenDataCache.FailuresAreTold | apps/api/src/opendata-cache.ts:130-149 | a waiting caller whose fetch failed is told so, and a refresh that failed ends |
| OpenDataCache.SweepTakesTheOld | apps/api/src/opendata-cache.ts:165-180 | the sweep takes exactly what was fetched before its cutoff |
| OpenDataCache.RefreshesAreSingle | apps/api/src/opendata-cache.ts:62-68 | a process has at most one background refresh of a key under way |
| OpenDataCache.OutagesAreRespected | apps/api/src/opendata-cache.ts:84-105 | after an outage and until a success a process starts no fetch of that key for two minutes |
| OpenDataCache.EmptyAndCooling | apps/api/src/opendata-cache.ts:99-105 | over every run a caller who found nothing stored is refused if and only if the last outage of that source, with no success since, is under two minutes old |
| OpenDataCache.CooloffsHaveCauses | apps/api/src/opendata-cache.ts:119-148 | over every run each cool-off goes back to a failed fetch of that key, and to a not-found answer only where it answered a background refresh |
| OpenDataCache.NotFoundCools | apps/api/src/opendata-cache.ts:119-148 | over every run a not-found answer begins a cool-off if and only if it answered a background refresh |
| OpenDataCache.NotFoundRefused | apps/api/src/opendata-cache.ts:92-149 | a run over sixty days, with a ten-minute time to live, in which a refresh is told not-found, the row turns sixty days old and is swept, and the next caller is refused as if the source were down |
| OpenDataCache.StaleIsServedAndRefreshed | apps/api/src/opendata-cache.ts:107-129 | over every run a stored answer is served at its own age; if stale, a task of that process is refreshing it or its source is cooling off |

## Left out

- Floating-point rounding: money, weights and yields are exact reals, so results that compare two sums hold exactly here and to rounding error there.
- Valuation.MethodsAgree: years to review are whole numbers; fractional powers are not modelled.
- Absorption.SoldShareExact: a scheme whose absorption needs more than 24 months leaves units unsold, so its ledger closes on `Unsold` rather than on nothing.
- Monotone.FinanceFalls: negative trade rates, other costs, held values, multipliers and percentages are excluded by `Sound`, and disposal with target may not exceed 100%; some are allowed by the input schema and break the claim.
- Ordering.FinanceOrder: stated for unphased, untimed schemes with non-negative finance, since phases and timed lines carry their own profiles.
- Engine.ComputeAppraisal: names, and the gross rents and display yields of the income breakdown, are left out of the result; `autoAppraise`, the joint-venture waterfall, stamp duty, the infrastructure levy, comparables and the discounted-cashflow grid are not modelled; an acquisition cost of exactly -100%, which divides by zero, is excluded.
- Rollups.RollUpCashflow: period labels and calendar dates are left out, as are the sales, lettings and portfolio roll-ups.
- Irr.RateIsRoot: of an arbitrary cashflow it says the bracket straddles a sign change; that a continuous curve then crosses zero inside is left to the reader, and proved only for an outlay followed by receipts.
- Monte Carlo sampling, geometry and number formatting: transcendental functions or presentation.
- WebhookSafety.RowsOnlyAdvance: a workspace's deletion is modelled as the removal of each of its endpoints; the choice of which endpoints an event goes to is any endpoint there is.
- Webhooks.DeliveryStore.Attempt: the POST, its signature and its error text are a response code that may be absent.
- StableJson: dates, boxed values, symbols, functions and big integers are not part of the tree; numbers are whatever a number printer made of digits, signs, a point and an exponent mark can tell apart.
- StableJsonExact.PinnedInputs: the hash is an uninterpreted function.
- Addresses.IsPublicAddress: the family comes from Node's address test, which is a parameter; only its IPv4 grammar is modelled, because the parser itself uses it. URL parsing, name resolution and the guarded connection are left out.
- ThrottleRuns.GuessesAreBounded: one address and no successful sign-in; deleting rows on success, on a workspace's deletion and by the daily sweep is not a step of these runs.
- ThrottleRuns.ResetsAreRationed: the daily sweep of rows untouched for a day is not a step.
- ReportSlots.QuietJobsReleased: a timer is a step that may happen at any time before the work settles; the browser is one that may refuse to close.
- OpenDataCache.ServedWasFetched: values are opaque and survive the trip through JSON; a failed read is an absent row, and a failed write changes nothing.
- Encryption, tokens, password hashing, Xero, the React application, reports, seeds and configuration: not part of this model.
