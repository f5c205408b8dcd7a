# Proposal filter, emissions dashboard state and chart decisions

This project models the few pieces of sequential logic found in a set of React/Next.js
front-ends. One is a governance app where users browse beneficiary proposals. The other is
an emissions dashboard that charts the transaction volume and estimated CO2 emissions of
chosen Ethereum contracts. The rendering is left aside. What remains is stated and proved
in Dafny:

- `Seqs` (seqs.dfy) models `Array.prototype.filter` once, as `Filter`. It proves that
  `Filter` keeps order, keeps exactly the matching elements with all their occurrences,
  is idempotent, and that two chained filters equal one filter by the conjunction.
- `ProposalGrid` (proposal_grid.dfy) models the proposal grid. The search box and the
  stage menu narrow the fetched proposals by two chained filters. One is
  "the lower-cased organisation name includes the lower-cased search string". The other is
  "the status is the selected one, or `All` is selected". The list shown is an ordered
  sub-list of the input. It contains every matching proposal. It shows everything for an
  empty search with `All`, ignores the case of the search string, and is unchanged by
  filtering it again. The stage menu offers the statuses 0 to 5.
- `EmissionsDashboard` (emissions_dashboard.dfy) models the dashboard's index page as the
  class `Dashboard`. Its fields are the page state and the browser's stored contract
  list. The methods are `UpdateDates`, `ClearTransactions`, `GetTransactions`,
  `AddContract` and `OpenAddContractModal`. Beside them are pure specifications:
  - the comparison date window, of the same length as the selected one and ending at its start;
  - the four checks of a contract to add, in their fixed short-circuit order;
  - the duplicate-checked append, which keeps stored addresses unique;
  - the sequence of ready states a fetch goes through, which always ends in `done`;
  - the per-contract transaction lists, each the ordered sub-list of transactions sent to
    that contract.
- `BiaxialLineChart` (biaxial_line_chart.dfy) models the chart's choice between drawing
  the series and showing "No transactions were made". The chart is drawn exactly when the
  `reduce` sum of `co2Emissions` is positive. The model also covers the tooltip and its guard.

Instants are integers (milliseconds since the epoch). Emissions are `real`. Strings are
`seq<char>`. The results of `web3.utils.isAddress`, `getCode` and the two transaction
fetches are parameters of the methods that use them.

The comparison window for 1 February to 1 March 2024 starts on 3 January 2024, because
the code subtracts the window's length in milliseconds and February 2024 has 29 days
(`ComparisonWindowFebruary2024`). `setReadyState('done')` at
packages/emissions-dashboard/pages/index.tsx:110 runs after the `error` sets at lines 90
and 108, so the ready state always ends at `done`. `error` appears only in the recorded
sequence of states (`Dashboard.GetTransactions`, `FetchReadyStatesShape`).

## Model

| member | source | states |
|---|---|---|
| `Seqs.Filter` | packages/app/components/Proposals/ProposalGrid.tsx:143-153 | `Array.prototype.filter`: the result is no longer than the input, and every element of it satisfies the predicate |
| `Seqs.FilterIsSubsequence` | packages/app/components/Proposals/ProposalGrid.tsx:142-153 | a filtered list is the input with some elements deleted and the order of the rest kept |
| `Seqs.FilterMembership` | packages/app/components/Proposals/ProposalGrid.tsx:142-153 | a value is in the filtered list if and only if it is in the input and satisfies the predicate |
| `Seqs.FilterCount` | packages/emissions-dashboard/pages/index.tsx:207-212 | every kept value occurs as often as in the input, and a rejected value does not occur |
| `Seqs.FilterKeepsAll` | packages/app/components/Proposals/ProposalGrid.tsx:142-153 | filtering returns its input unchanged if and only if every element satisfies the predicate |
| `Seqs.FilterFuse` | packages/app/components/Proposals/ProposalGrid.tsx:142-153 | two chained filters give the same list as one filter by the conjunction |
| `Seqs.FilterCongruent` | packages/app/components/Proposals/ProposalGrid.tsx:146 | predicates that agree on the input's elements keep the same list |
| `ProposalGrid.LowerChar` | packages/app/components/Proposals/ProposalGrid.tsx:145-146 | lower-casing sends each upper-case ASCII letter to its own lower-case letter and leaves every other character unchanged |
| `ProposalGrid.ToLowerCaseIdempotent` | packages/app/components/Proposals/ProposalGrid.tsx:145-146 | lower-casing twice is lower-casing once |
| `ProposalGrid.IncludesIffOccurs` | packages/app/components/Proposals/ProposalGrid.tsx:144-146 | `includes` holds if and only if the search string occurs at some index of the name |
| `ProposalGrid.IncludesEmpty` | packages/app/components/Proposals/ProposalGrid.tsx:146 | every string includes the empty string |
| `ProposalGrid.VisibleProposals` | packages/app/components/Proposals/ProposalGrid.tsx:142-153 | soundness: every shown proposal is an input proposal whose lower-cased name includes the lower-cased search and whose status is the selected one or `All` is selected; completeness: every input proposal meeting both is shown |
| `ProposalGrid.VisibleIsOneFilter` | packages/app/components/Proposals/ProposalGrid.tsx:142-153 | the two chained filters equal one filter by both conditions |
| `ProposalGrid.VisibleIsOrderedSublist` | packages/app/components/Proposals/ProposalGrid.tsx:142-153 | the shown list is an ordered sub-list of the proposals, and each matching proposal occurs as often as in the input |
| `ProposalGrid.VisibleShowsAll` | packages/app/components/Proposals/ProposalGrid.tsx:144-152 | an empty search string with `All` shows the input list unchanged |
| `ProposalGrid.VisibleCaseInsensitive` | packages/app/components/Proposals/ProposalGrid.tsx:146 | two search strings with the same lower-case form show the same list |
| `ProposalGrid.VisibleIdempotent` | packages/app/components/Proposals/ProposalGrid.tsx:142-153 | filtering the shown list again with the same filters returns it unchanged |
| `ProposalGrid.InitialFilters` | packages/app/components/Proposals/ProposalGrid.tsx:21-22 | a fresh grid (empty search, `All`) shows every fetched proposal in order |
| `ProposalGrid.StageMenu` | packages/app/components/Proposals/ProposalGrid.tsx:112 | the menu has six entries, entry k is status k, and a status is offered if and only if it is below 6 |
| `ProposalGrid.PickStage` | packages/app/components/Proposals/ProposalGrid.tsx:112-119 | picking menu entry k sets the status filter to k, a status the menu offers, and keeps the search string |
| `ProposalGrid.TypeSearch` | packages/app/components/Proposals/ProposalGrid.tsx:55-56 | typing replaces the search string and keeps the status filter |
| `EmissionsDashboard.ComparisonWindow` | packages/emissions-dashboard/pages/index.tsx:122-127 | the selected start and end are kept, and the comparison window is as long as the selected one and ends at its start |
| `EmissionsDashboard.ComparisonWindowFebruary2024` | packages/emissions-dashboard/pages/index.tsx:122-124 | for 1 February to 1 March 2024 the comparison window starts on 3 January 2024, not on 1 January |
| `EmissionsDashboard.DefaultContractsUnique` | packages/emissions-dashboard/pages/index.tsx:18-36 | the five default contracts have pairwise distinct addresses, so the displayed list meets the premise of `PanelsPartition` |
| `EmissionsDashboard.Validate` | packages/emissions-dashboard/pages/index.tsx:131-142 | no message if and only if name and address are non-empty, the address is valid and the code is neither `0x` nor `0x0`; any message is one of the four non-empty messages |
| `EmissionsDashboard.FirstFailure` | packages/emissions-dashboard/pages/index.tsx:132-142 | no failure is reported if and only if every check passed |
| `EmissionsDashboard.ValidateReportsFirstFailure` | packages/emissions-dashboard/pages/index.tsx:132-142 | the message is that of the first failed check in the order name, address, address syntax, bytecode, so later checks do not matter once one failed |
| `EmissionsDashboard.Addresses` | packages/emissions-dashboard/pages/index.tsx:148-150 | the address list has one entry per stored contract, holding that contract's address |
| `EmissionsDashboard.Registered` | packages/emissions-dashboard/pages/index.tsx:144-160 | after a successful add the address is stored; with no stored list the list becomes exactly the one contract; otherwise the old list is a prefix of the new one, which is at most one longer |
| `EmissionsDashboard.RegisteredNoDuplicate` | packages/emissions-dashboard/pages/index.tsx:148-157 | adding an address that is already stored leaves the list as it was |
| `EmissionsDashboard.RegisteredAppends` | packages/emissions-dashboard/pages/index.tsx:151-156 | adding a new address appends the contract at the end |
| `EmissionsDashboard.RegisteredKeepsUnique` | packages/emissions-dashboard/pages/index.tsx:144-160 | adding keeps the stored addresses pairwise distinct |
| `EmissionsDashboard.TransactionsTo` | packages/emissions-dashboard/pages/index.tsx:207-212 | every transaction in a contract's list is sent to that contract's address |
| `EmissionsDashboard.TransactionsToExact` | packages/emissions-dashboard/pages/index.tsx:207-212 | a contract's list is an ordered sub-list of the period's list holding every transaction to that address as often as it occurs, and nothing else |
| `EmissionsDashboard.ContractPanels` | packages/emissions-dashboard/pages/index.tsx:204-219 | one panel per displayed contract, in order, whose two lists hold only transactions to that contract |
| `EmissionsDashboard.PanelsPartition` | packages/emissions-dashboard/pages/index.tsx:204-219 | a transaction is in a panel if and only if it was fetched and is sent to that panel's contract; with unique displayed addresses it is in no other panel of the same period, for both periods |
| `EmissionsDashboard.FetchReadyStatesShape` | packages/emissions-dashboard/pages/index.tsx:73-110 | a fetch goes through `loading` first and `done` last; `error` appears if and only if a fetch failed, once per failed fetch |
| `EmissionsDashboard.Dashboard.constructor` | packages/emissions-dashboard/pages/index.tsx:40-60 | the page starts closed, with an empty message, the five default contracts, state `loading` and empty transaction lists |
| `EmissionsDashboard.Dashboard.ClearTransactions` | packages/emissions-dashboard/pages/index.tsx:168-171 | both period lists become empty and nothing else changes |
| `EmissionsDashboard.Dashboard.UpdateDates` | packages/emissions-dashboard/pages/index.tsx:119-128 | the state becomes `loading`, both lists are emptied, start and end are stored and the comparison start is `start - (end - start)`; the registry, message and modal are untouched |
| `EmissionsDashboard.Dashboard.GetTransactions` | packages/emissions-dashboard/pages/index.tsx:72-117 | the recorded states are `loading`, one `error` per failed fetch, then `done`; the state ends `done`; a failed period gets an empty list, a fetched one its list |
| `EmissionsDashboard.Dashboard.AddContract` | packages/emissions-dashboard/pages/index.tsx:130-166 | when the first three checks pass and `getCode` rejects, the handler stops at the `await` and the modal, message and stored list are unchanged; otherwise the message becomes the validation result (unset on success) and the modal closes; the stored list changes only when validation passes, and then as `Registered` says; uniqueness of stored addresses is preserved; the displayed contracts and everything else are unchanged |
| `EmissionsDashboard.Dashboard.OpenAddContractModal` | packages/emissions-dashboard/pages/index.tsx:173-176 | the modal opens with an empty message and nothing else changes |
| `BiaxialLineChart.ReduceIsTotal` | packages/ui/src/components/popcorn/emissions-dashboard/recharts/BiaxialLineChart/index.tsx:80-83 | the left-fold `reduce` from a start value equals the start value plus the total emissions |
| `BiaxialLineChart.Chart` | packages/ui/src/components/popcorn/emissions-dashboard/recharts/BiaxialLineChart/index.tsx:80-84 | the chart branch is chosen if and only if the total of `co2Emissions` is positive, and it is given the series unchanged |
| `BiaxialLineChart.ChartEmptySeries` | packages/ui/src/components/popcorn/emissions-dashboard/recharts/BiaxialLineChart/index.tsx:81-84 | an empty series shows "No transactions were made" |
| `BiaxialLineChart.ChartAllZero` | packages/ui/src/components/popcorn/emissions-dashboard/recharts/BiaxialLineChart/index.tsx:80-84 | a series whose emissions are all zero totals zero and shows "No transactions were made", whatever its transaction counts |
| `BiaxialLineChart.ChartDependsOnlyOnCo2` | packages/ui/src/components/popcorn/emissions-dashboard/recharts/BiaxialLineChart/index.tsx:80-83 | two series with the same emissions point by point choose the same branch |
| `BiaxialLineChart.ChartNonNegative` | packages/ui/src/components/popcorn/emissions-dashboard/recharts/BiaxialLineChart/index.tsx:80-83 | with no negative emissions, the chart is drawn if and only if some point has positive emissions |
| `BiaxialLineChart.CustomTooltipAsWritten` | packages/ui/src/components/popcorn/emissions-dashboard/recharts/BiaxialLineChart/index.tsx:23-35 | the tooltip renders nothing if and only if it is inactive or the payload is missing or empty |
| `BiaxialLineChart.CustomTooltipAsWrittenThrows` | packages/ui/src/components/popcorn/emissions-dashboard/recharts/BiaxialLineChart/index.tsx:24-29 | an active tooltip with any one-entry payload passes the guard and throws when it reads entry 1 |
| `BiaxialLineChart.CustomTooltip` | packages/ui/src/components/popcorn/emissions-dashboard/recharts/BiaxialLineChart/index.tsx:23-35 | never throws; shows if and only if active with at least two payload entries, then with the label, entry 0 as volume and entry 1 as emissions |
| `BiaxialLineChart.CustomTooltipAgrees` | packages/ui/src/components/popcorn/emissions-dashboard/recharts/BiaxialLineChart/index.tsx:23-35 | the corrected tooltip gives the same result as the written one except where the written one throws |

## Left out

- Rendering: JSX, Tailwind classes, the headlessui menu and transitions, the modal, spinner and error components, and the charting library's drawing.
- Routing: the `router.replace` effect (packages/emissions-dashboard/pages/index.tsx:66-70) and the whole of packages/app/pages/index.tsx.
- Fetching proposals: the `ProposalAdapter`/IPFS call (packages/app/components/Proposals/ProposalGrid.tsx:24-31). The proposals are an input of the filter.
- The `Status` enum: its declaration is not part of this model. A status is its numeric value, and the value of `All` is the parameter `all`.
- `toLowerCase`: the model lower-cases ASCII letters only. Unicode case mapping is not modelled.
- The HTTP fetches, their JSON decoding, `localStorage` and its JSON encoding, `web3.utils.isAddress` and `getCode`: these are I/O and foreign libraries. Their results are method parameters. A failed fetch or decoding is `None`. The storage entry is a field. A rejected `getCode` is `None`.
- The `Number(...)` coercion of `gasUsed` and `gasPrice` (packages/emissions-dashboard/pages/index.tsx:81-85, 99-103): JavaScript number parsing and floating point. Transactions reach the model already numeric.
- `BiaxialLineChart.Chart`: emissions are mathematical reals. The rounding of IEEE doubles in `reduce`, and a `NaN` total (from a missing or non-numeric `co2Emissions`, which makes `> 0` false), are not represented.
- Asynchrony: the two awaited fetches, the awaited `getCode` and repeated date changes can interleave. Stale responses are not modelled. `GetTransactions` and `AddContract` each run as one sequential step.
- The effect that refetches when the dates change (packages/emissions-dashboard/pages/index.tsx:62-64): a caller runs `UpdateDates` and then `GetTransactions`.
- The default dates from `DateTime.now()` (packages/emissions-dashboard/pages/index.tsx:46-52): the clock is left out, and the constructor takes the three dates.
- JavaScript `Date` limits: the invalid date past ±8.64e15 ms is not modelled. Dates are unbounded integers.
- `getStatCardData` and `getChartData` (called from packages/ui/src/components/popcorn/emissions-dashboard/TotalStats/index.tsx): their code is not part of this model.
- Setters handed to child components (`setOpen`, `setErrorMessage` passed to the navigation bar): the children that call them are not part of this model.
- packages/app/components/Proposals/Voting/ChallengePeriodVoting.tsx, packages/emissions-dashboard/components/AreaBarChart.tsx and the Storybook files: copy, chart wiring and story harnesses, with no logic to state.

## Findings

| source | as written | input that shows it | evidently intended | confidence | as-written member | corrected member |
|---|---|---|---|---|---|---|
| packages/ui/src/components/popcorn/emissions-dashboard/recharts/BiaxialLineChart/index.tsx:24-29 | the guard accepts any non-empty `payload`, then reads `payload[1].value` | `active` true with a one-entry payload: `payload[1]` is `undefined` and reading `.value` throws a TypeError | the tooltip is shown only when both entries it reads are present | medium (the charting library normally passes one entry per line, i.e. two); not executed | `BiaxialLineChart.CustomTooltipAsWrittenThrows` | `BiaxialLineChart.CustomTooltip` |
