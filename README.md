# Dashboard poll and search logic, modelled in Dafny

This project models the live logic inside three React components of a read-only
dashboard for a distributed ledger network:

- **BlocksCard** (`blocks_card.dfy`, module `BlocksCard`). The block-height card
  keeps a poll state `{blockHeight, prevBlockHeight, error}`. Each completed
  block-height request is one atomic transition, `Next`. A failure increments
  `error`. A well-formed height strictly above the current one is accepted: the
  height moves up, `prevBlockHeight` becomes the old height (or, on the first
  acceptance, an estimated baseline), and `error` resets to 0. Any other response
  changes nothing. `Run` folds a sequence of outcomes. The lemmas over `Run` say:
  - the height never decreases;
  - the state after the last acceptance is fixed by that acceptance, with `error`
    counting the failures since;
  - from the initial state the height stays -1 until the first acceptance, so the card
    shows "Loading..." until then unless `error` has reached the threshold.

  `DisplayValue` is the choice made in `render`. `BlockRate` is the shape-checked
  read of the block rate, with a fallback of 45. The class `Card` holds the three
  fields. Its `PollForBlockHeight` is proved to perform exactly `Next`.
- **MessagesChart** (`messages_chart.dfy`, module `MessagesChart`). This component
  turns cumulative `[timestamp, total]` samples into per-bucket bars.
  - `Deltas` is the recursive specification.
  - `ComputeMessagesData` is the loop the source runs, with its mutable previous
    total, proved equal to `Deltas`.
  - The lemmas give the exact length, non-negativity, the entry-by-entry formula,
    the date order, and the telescoping of the bar sum.
  - The class `Chart` applies a response: data replaces the old data on success;
    `error` is set on failure, including when the sample list is missing or empty.
  - `Title` and `TickLabelY` are the chart title and the y-axis tick label.
    `decimal.dfy` supplies the decimal digits of a whole number of thousands and
    their round trip.
- **DEAppBar** (`app_bar.dfy`, module `AppBar`). The class `DEAppBar` holds the
  search-bar state `isSearchOn` / `searchQuery`. Its event handlers are methods.
  `pushed` records the paths pushed onto the router's history. `SearchPath` builds
  `/search/<query>`. `IsActiveRoute` is an exact string equality. The two drawer
  rules that depend on the breakpoint are pure functions.

Everything outside the core is a parameter of the model:
- Network responses are datatypes (`PollOutcome`, `RateResponse`, `MessagesResponse`).
- The error threshold is a parameter (`threshold`).
- The poll interval is a parameter (in whole seconds).
- The baseline distance is a parameter (`baselineDelta`, or `BaselineDelta(blocksPerSecond, seconds)`).
- The breakpoint test is a boolean `isDesktop`.
- Whether a router is present is the constant `hasRouter`.

The constants module of the repository is not part of this model, so its values stay
parameters.

Behaviour of the code worth noting:
- `error` is reset only by an accepted height. A rejected success leaves it as it
  was: a height that is not higher, a NaN height, or a `block_height` of the wrong
  length.
- The first acceptance always gets the estimated baseline as `prevBlockHeight`.
- The baseline is computed again whenever `prevBlockHeight` is -1. The code tests
  `prevBlockHeight !== -1`, not "first acceptance".
- An in-flight request is never cancelled.
- "Loading..." shows exactly when `blockHeight == -1` and `error` is below the threshold.

## Model

| member | source | states |
|---|---|---|
| `BlocksCard.Card.constructor` | web/src/Components/BlocksCard/BlocksCard.js:38-42 | the card starts with `blockHeight = -1`, `prevBlockHeight = -1`, `error = 0` |
| `BlocksCard.Card.PollForBlockHeight` | web/src/Components/BlocksCard/BlocksCard.js:108-133 | applying a completed request to the component's fields gives exactly the state `Next` describes |
| `BlocksCard.Next` | web/src/Components/BlocksCard/BlocksCard.js:112-131 | a failure adds exactly 1 to `error` and keeps both heights; a success with the wrong `block_height` length, a NaN height, or a height not strictly above the current one changes nothing, `error` included; an accepted height is strictly larger, becomes `blockHeight`, resets `error` to 0, and sets `prevBlockHeight` to the baseline `height - baselineDelta` when it was -1 and to the old height otherwise; the height never drops, and from a height of at least -1 an accepted height is at least 0 |
| `BlocksCard.RunHeightMonotone` | web/src/Components/BlocksCard/BlocksCard.js:112-125 | after any sequence of outcomes the height is at least the starting height |
| `BlocksCard.HeightNeverDecreases` | web/src/Components/BlocksCard/BlocksCard.js:112-125 | for any outcome sequence, the height after a longer prefix is at least the height after a shorter one |
| `BlocksCard.NoAcceptance` | web/src/Components/BlocksCard/BlocksCard.js:112-131 | if no request in a sequence is accepted, both heights are unchanged and `error` grows by the number of failures in it |
| `BlocksCard.LastAcceptanceDeterminesState` | web/src/Components/BlocksCard/BlocksCard.js:115-131 | after the last accepted request `k`, `blockHeight` is request `k`'s height, `prevBlockHeight` is the height just before it (or the baseline when that state's `prevBlockHeight` was -1), and `error` is the number of failures completed after `k` |
| `BlocksCard.LoadingUntilFirstAcceptance` | web/src/Components/BlocksCard/BlocksCard.js:38-124 | from the initial state the height is never below -1, and it is -1 exactly when no request has been accepted; the card shows "Loading..." exactly when no request has been accepted and `error` is below the threshold |
| `BlocksCard.ConsecutiveFailures` | web/src/Components/BlocksCard/BlocksCard.js:79-131 | `k` failures in a row add exactly `k` to `error`, and the card shows "Network error" after them exactly when the count reaches the threshold |
| `BlocksCard.DisplayValue` | web/src/Components/BlocksCard/BlocksCard.js:78-98 | "Network error" exactly when `error >= threshold`, whatever the height; otherwise "Loading..." exactly when `blockHeight == -1`; otherwise a count-up from `prevBlockHeight` to `blockHeight` |
| `BlocksCard.AcceptanceShowsCountUp` | web/src/Components/BlocksCard/BlocksCard.js:79-124 | with a positive threshold, an accepted response clears a network error at once and the card shows the count-up to the new height |
| `BlocksCard.BlockRate` | web/src/Components/BlocksCard/BlocksCard.js:139-149 | the rate is the fetched value when `block_rate` has length 1 and its element has length 2, and 45 otherwise or when the request fails |
| `BlocksCard.FirstAcceptanceBaseline` | web/src/Components/BlocksCard/BlocksCard.js:117-123 | the first accepted height `h >= 0` gives the state `{h, h - rate * seconds, 0}`: the estimated previous height is where the chain stood one poll interval earlier at the fetched block rate |
| `MessagesChart.Deltas` | web/src/Components/MessagesChart/MessagesChart.js:87-94 | one bar per later sample; bar `i` is dated at that sample's timestamp times 1000 and counts `max(total - previous raw total, 0)`, measured from the immediately preceding raw total even after a drop; every count is at least 0 |
| `MessagesChart.MessagesData` | web/src/Components/MessagesChart/MessagesChart.js:84-94 | an empty sample list gives no data (the error path); `n >= 1` samples give exactly `n - 1` bars |
| `MessagesChart.ComputeMessagesData` | web/src/Components/MessagesChart/MessagesChart.js:86-94 | the loop over `values[1..]` with a mutable previous total yields the same bars as the specification, bar `i` being `Bar(timestamp[i+1] * 1000, max(total[i+1] - total[i], 0))` |
| `MessagesChart.DeltasCoverGrowth` | web/src/Components/MessagesChart/MessagesChart.js:87-94 | the bars add up to at least the last total minus the first |
| `MessagesChart.DeltasTelescope` | web/src/Components/MessagesChart/MessagesChart.js:87-94 | when the totals never drop, the bars add up exactly to the last total minus the first |
| `MessagesChart.DatesFollowTimestamps` | web/src/Components/MessagesChart/MessagesChart.js:89-93 | bar dates are ordered as the samples' timestamps are |
| `MessagesChart.ResponseData` | web/src/Components/MessagesChart/MessagesChart.js:82-103 | a response yields data exactly when the request succeeded and `messages_count` is present and non-empty |
| `MessagesChart.Chart.constructor` | web/src/Components/MessagesChart/MessagesChart.js:41-45 | the chart starts with no data and no error |
| `MessagesChart.Chart.ComponentDidMount` | web/src/Components/MessagesChart/MessagesChart.js:82-103 | on success the new bars replace `messagesData` wholesale and `error` is untouched; on any failure `error` becomes true and `messagesData` is unchanged |
| `MessagesChart.Title` | web/src/Components/MessagesChart/MessagesChart.js:111-117 | "Messages" without an error, "Messages - Network Error" with one |
| `MessagesChart.TickLabelY` | web/src/Components/MessagesChart/MessagesChart.js:164-171 | a value below 1000 is returned unchanged, as a number; a multiple of 1000 at or above 1000 becomes the decimal digits of `value / 1000` followed by "k"; any other value takes the one-decimal branch |
| `MessagesChart.ThousandsLabelRoundTrip` | web/src/Components/MessagesChart/MessagesChart.js:165-168 | a label for a multiple of 1000 is digits followed by "k", and reading the digits back and multiplying by 1000 gives the value |
| `MessagesChart.ThousandsLabelsDistinct` | web/src/Components/MessagesChart/MessagesChart.js:165-168 | distinct whole-thousand ticks get distinct labels |
| `Decimal.NatToString` | web/src/Components/MessagesChart/MessagesChart.js:167 | a whole number renders as a non-empty string of decimal digits with no leading zero |
| `Decimal.NatToStringRoundTrip` | web/src/Components/MessagesChart/MessagesChart.js:167 | reading the rendered digits back gives the number |
| `AppBar.DEAppBar.constructor` | web/src/Components/DEAppBar/DEAppBar.js:452-455 | the bar starts with search off, an empty query, and nothing pushed |
| `AppBar.DEAppBar.HandleSearchClick` | web/src/Components/DEAppBar/DEAppBar.js:778-782 | turns search on; the query and navigation are untouched |
| `AppBar.DEAppBar.HandleCloseClick` | web/src/Components/DEAppBar/DEAppBar.js:788-792 | turns search off; the query and navigation are untouched |
| `AppBar.DEAppBar.HandleDownshiftStateChange` | web/src/Components/DEAppBar/DEAppBar.js:799-806 | a non-empty input value becomes the query; an empty or absent one leaves the state unchanged |
| `AppBar.DEAppBar.HandleDownshiftChange` | web/src/Components/DEAppBar/DEAppBar.js:813-815 | a selection searches for the selected item |
| `AppBar.DEAppBar.HandleSearchSubmit` | web/src/Components/DEAppBar/DEAppBar.js:822-825 | a submit searches for the query held before the submit |
| `AppBar.DEAppBar.PerformSearch` | web/src/Components/DEAppBar/DEAppBar.js:832-839 | always ends with search off and an empty query; pushes `/search/<query>` exactly when a router is present, and does not navigate otherwise |
| `AppBar.TypeAndSubmit` | web/src/Components/DEAppBar/DEAppBar.js:778-839 | opening the bar, typing a query and submitting navigates exactly once, to the search page for that query |
| `AppBar.SearchPath` | web/src/Components/DEAppBar/DEAppBar.js:838 | the path is the prefix `/search/` followed by exactly the query |
| `AppBar.SearchPathInjective` | web/src/Components/DEAppBar/DEAppBar.js:838 | different queries produce different paths |
| `AppBar.IsActiveRoute` | web/src/Components/DEAppBar/DEAppBar.js:847-849 | holds exactly when the path name equals the route name, character for character |
| `AppBar.ActiveRouteIsExact` | web/src/Components/DEAppBar/DEAppBar.js:847-849 | the route test is exact equality and not a prefix match: `/search/` is active on a search page only for the empty query |
| `AppBar.MenuButtonHandler` | web/src/Components/DEAppBar/DEAppBar.js:604-606 | the menu button goes to the desktop handler exactly on a desktop breakpoint, and to the mobile handler otherwise |
| `AppBar.ResizeTogglesMobileDrawer` | web/src/Components/DEAppBar/DEAppBar.js:519-522 | a resize calls the mobile-drawer handler exactly when on a desktop breakpoint with the mobile drawer open |
| `AppBar.ResizeClosesMobileDrawerOnDesktop` | web/src/Components/DEAppBar/DEAppBar.js:519-522 | if the owner's handler flips the drawer, a resize on a desktop breakpoint always leaves it closed, and a resize elsewhere never changes it |

## Left out

- HTTP requests, `await` and out-of-order completion: each completed request is one atomic transition whose outcome is an input. The repository relies on last-completed-wins, guarded by the height check.
- Timers (`setInterval` / `clearInterval`) and unmounting: they only schedule polls.
- BlocksCard.Card.PollForBlockHeight: the rate is an argument of every poll, as in the source's `pollForBlockHeight(blocksPerSecond)`. That `componentDidMount` reads the rate once with `BlockRate` and passes the same value to every poll is not a field of the model; `Run` expresses it by using one `baselineDelta` for the whole sequence.
- BlocksCard.BlockRate: models the rate as a whole number. `parseFloat`'s fractional values and NaN are not modelled, and neither is the fractional baseline `rate * interval / 1000`. The baseline is an integer `baselineDelta`.
- BlocksCard.Next: a `block_height` element that `parseInt` reads as NaN is the `None` case. How `parseInt` reads a string is not modelled.
- MessagesChart.Deltas: totals and timestamps are integers, so `Math.floor` is the identity. Non-null, non-array sample elements (which give NaN in the source rather than an error) are not modelled. A `null` sample element throws when it is read, and the catch sets `error`; that error path is not modelled either.
- MessagesChart: the request's start/end seconds, `Date` conversions (the bar date is the timestamp times 1000), locale formatting of the x-axis and tooltips, and `prevDate` (never read by live code) are left out.
- MessagesChart.TickLabelY: the `toFixed(1)` rendering of a non-whole number of thousands is only named (`OneDecimal`), not rendered. `toFixed(0)` switching to exponent notation at 10^21 is not modelled.
- AppBar.DEAppBar.HandleDownshiftChange: the selected item is a string. A null selection, which the source would render as the text "null" in the path, is not modelled.
- AppBar.ResizeClosesMobileDrawerOnDesktop: assumes the owner's mobile-drawer handler flips the drawer. The owner component is not part of this model.
- The app-bar height reported to the owner, `event.preventDefault()`, `getProductIconHeight`'s 23.8, all JSX and styling, the count-up animation, the home page layout and the application bootstrap are presentation only.
- The commented-out fast-chart polling code is not live and is not modelled.
