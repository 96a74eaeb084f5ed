# port_utilization: a verified model of interface resolution and counter sampling

`port_utilization` is a terminal bandwidth monitor for one network interface of an SNMP
agent. It resolves the interface named on the command line to an IF-MIB interface index,
reads the interface's metadata once, and then, on every refresh tick, reads six traffic
counters. From each pair of consecutive samples it derives per-counter deltas and the
Rx/Tx utilization of the link, as a percentage of its speed, and appends those to two charts.

This project models the logic of `port_utilization.go` in Dafny, with every SNMP exchange
replaced by the agent's answer as an input value (`Snmp.Reply`: a transport error, or a PDU
with an error status and its decoded bindings):

- `Text`: the pieces of Go's text library the resolver relies on: the `\d` class,
  `strconv.Atoi`/`strconv.Itoa` on decimal digits, ASCII `strings.ToUpper` and `strings.Index`.
- `Resolver`: `parseIfName`. A token of the form `.<digits>` names an index directly. Any
  other token is matched, ignoring case, against the walked `ifName` column of the IF-MIB
  `ifXTable` (RFC 2863, section 6). The first matching row wins, and no match is a
  not-found error.
- `Utilization`: the rate formula `delta*8*100 / (speed*t*1_000_000)` over the reals, and
  the timer rule "refresh on tick `c` when `c % interval == 0`".
- `Counters`: the six-counter record, the exact deltas, and the rate series a sequence of
  committed samples produces.
- `Dashboards`: `NewDashboard`'s error gating, and the `Dashboard` class. Its fields are the
  previous sample, the two rate series, and the values the panels show. `UpdateData` and the
  timer handler are methods on it. A ghost history of committed samples ties both series to
  `Counters.Series`.

What the code does at its edges, and the model with it:

- The code applies no wraparound correction. A delta is the exact difference and can be
  negative.
- The rate series are never bounded. They are created with capacity 120 and grow by
  `append` with no eviction.
- A zero speed or interval is not reported as an error. Go would produce Inf/NaN there, so
  the model requires both to be positive.
- On the first successful sample the code appends a rate of 0, not a "no value yet" marker.

## Model

| member | source | states |
|---|---|---|
| `Snmp.Check` | port_utilization.go:98-104 | a transport error is passed on and a PDU with a non-NoError status is a status error; only a NoError PDU yields its bindings |
| `Text.AllDigits` | port_utilization.go:131 | the recursive `\d+` test holds exactly when every character is a decimal digit |
| `Text.DecimalValue` | port_utilization.go:147 | the value Atoi reads from k digits is below 10^k |
| `Text.FormatDecimal` | port_utilization.go:95-96 | Itoa yields a non-empty digit string without a leading zero, and Atoi reads back the same number |
| `Text.FormatDecimalOfValue` | port_utilization.go:147 | for a digit string without a leading zero, Itoa of its Atoi value is the string itself |
| `Text.LeadingZeroIgnored` | port_utilization.go:147 | a leading `0` does not change the value Atoi reads, so `.007` names index 7 |
| `Text.UpperChar` | port_utilization.go:163 | ASCII upper-casing never yields a lower-case letter, keeps every character outside `a`-`z`, and turns a lower-case letter into the capital at the same alphabet position |
| `Text.UpperIdempotent` | port_utilization.go:163 | upper-casing an upper-cased string changes nothing |
| `Text.IndexOf` | port_utilization.go:163 | the result is -1 exactly when the needle occurs nowhere; otherwise it is a position where the needle occurs and no earlier position has it |
| `Text.IndexOfEmpty` | port_utilization.go:163 | the empty needle is found at position 0 of any string |
| `Resolver.IsNumericSuffix` | port_utilization.go:131-132 | a token takes the numeric path exactly when it is a dot followed by one or more decimal digits and nothing else |
| `Resolver.SuffixIndex` | port_utilization.go:147 | the index a numeric token names has at most as many decimal digits as the token has after its dot, and when those digits have no leading zero Itoa of the index gives them back |
| `Resolver.Matches` | port_utilization.go:163 | a row matches exactly when the upper-cased token occurs somewhere in the upper-cased name |
| `Resolver.ParseIfName` | port_utilization.go:127-172 | a numeric token's success carries the agent's name and the suffix index; any other token's success is one of the walked rows; not-found arises only on the substring path when no walked row matches (the full contract is in NumericSuffixResolution and SubstringResolution) |
| `Resolver.FirstMatch` | port_utilization.go:162-168 | the result is a matching row with no matching row before it, and it is None exactly when no row matches |
| `Resolver.NumericSuffixResolution` | port_utilization.go:132-149 | a numeric token resolves exactly when its Get succeeds with NoError, to the agent's name and the decimal value of the digits after the dot; a transport or status failure is returned as that error |
| `Resolver.SubstringResolution` | port_utilization.go:150-171 | a failed walk is returned as its error; the token resolves exactly when the walk succeeds and some walked row matches; on success the name and index come from one walked row that matches with no earlier match; the result is not-found exactly when no row matches |
| `Resolver.MatchIgnoresCase` | port_utilization.go:163 | a token and its upper-cased form match the same rows |
| `Resolver.EmptyTokenSelectsFirstRow` | port_utilization.go:162-166 | the empty token takes the substring path and selects the first row walked |
| `Resolver.SuffixIndexRoundTrip` | port_utilization.go:133-147 | a dot followed by Itoa of an index is a numeric token that resolves back to that index |
| `Utilization.Rate` | port_utilization.go:238-239 | the rate is non-negative exactly when the octet delta is, and zero exactly when the delta is zero (its scale is stated by RateTimesCapacity and RateAgainstCapacity) |
| `Utilization.RateTimesCapacity` | port_utilization.go:238-239 | the rate times the link capacity in bits (speed*t*10^6) is the delta in bits times 100 |
| `Utilization.RateAgainstCapacity` | port_utilization.go:238-239 | the rate is 100 exactly when the delta in bits equals the link capacity over the interval, and at most 100 exactly when it does not exceed it; there is no clamp |
| `Utilization.RateMonotonic` | port_utilization.go:238-239 | a larger delta never gives a lower rate |
| `Utilization.RateExample` | port_utilization.go:238 | 12,500,000 octets in 1 s on a 1000 Mbps link is 10 percent |
| `Utilization.ShouldRefresh` | port_utilization.go:320 | below one interval only tick 0 refreshes, and from there on tick c refreshes exactly when tick c - interval does: the refresh ticks are the multiples of the interval |
| `Utilization.RefreshTicksCount` | port_utilization.go:319-321 | over ticks 1..n a refresh is attempted (UpdateData is called) exactly `n / interval` times |
| `Counters.Delta` | port_utilization.go:205-220 | with no previous sample every delta is 0; otherwise adding the deltas to the previous sample gives the current one |
| `Counters.DeltaNotWrapped` | port_utilization.go:213-220 | an octet delta is negative exactly when the counter went down: nothing corrects wraparound |
| `Counters.Series` | port_utilization.go:238-241 | after n committed samples a series has n rates; the first is 0 and rate i is the rate of the octets between samples i-1 and i |
| `Counters.TotalOctetsTelescopes` | port_utilization.go:213-222 | the deltas of consecutive samples add up to the change from the first sample to the last |
| `Dashboards.Setup` | port_utilization.go:89-124 | a successful setup carries the index and name resolution gave and the sysName, alias and speed of a NoError metadata answer (the error cases are in SetupGating) |
| `Dashboards.SetupGating` | port_utilization.go:89-124 | setup succeeds exactly when resolution and the metadata request both do; each failure is returned as its own error; on success index and name are the resolved ones and the speed, sysName and alias come from the metadata |
| `Dashboards.NewDashboard` | port_utilization.go:89-124 | a dashboard is returned only when setup succeeds, whose header is the interface setup resolved (the index requests use and the speed rates use), no sample, no deltas shown, no elapsed time and empty series; otherwise only the error is returned |
| `Dashboards.Dashboard.constructor` | port_utilization.go:71-80 | a new dashboard has no previous sample and two empty rate series |
| `Dashboards.Dashboard.UpdateData` | port_utilization.go:174-244 | a failed request returns its error and changes nothing; a successful one stores the sample as the previous one, shows the deltas, and appends exactly one Rx and one Tx rate computed from the octet deltas, keeping every earlier rate |
| `Dashboards.Dashboard.OnTimer` | port_utilization.go:317-328 | every tick shows its count; the data is refreshed, as by UpdateData, exactly when `c % interval == 0` and the request succeeds; otherwise the sample and series are unchanged |

## Left out

- The SNMP transport (session setup, `GetRequest`, `GetBulkWalk` and its paging, `MatchOid`, `MatchBaseOids`, `Variable.BigInt`, `Variable.String`): each answer is an input value, and a binding missing from a PDU is not modelled.
- OID construction with `MustNewOid` and the textual OIDs: the model does not build requests, so it does not show that each request carries the resolved index; the metadata and counter answers are taken to be the answers for that index.
- The termui widgets, layout, rendering and event loop: the panels are kept only as the values they show (`header`, `rawData`, `elapsed`). `UpdateTime`'s duration formatting and `hu.Comma` are not modelled.
- Flag parsing, the `q` key and process exit in `main`: I/O plumbing. The first `UpdateData` call before the loop is the same `UpdateData` method.
- Utilization.Rate: computed over exact reals; the float64 rounding and the `big.Int.Int64()` conversion, undefined outside the int64 range, are not modelled.
- Utilization.Rate: requires a positive speed and interval. In Go a zero speed gives Inf/NaN and a negative interval gives negative rates; neither case is modelled.
- Utilization.ShouldRefresh: requires a non-negative tick count and a positive interval. For those operands Go's truncating `%` and Dafny's agree. An interval of 0 makes Go panic.
- Text.UpperChar: upper-cases ASCII letters only; the Unicode case mapping of `strings.ToUpper` is not modelled.
- Text.DecimalValue: unbounded; the `strconv.Atoi` range error on very long digit strings, which the code ignores, is not modelled.
- The errors' message texts (`Failed - <status>(<index>)`, `interface '<token>' not fould`) are kept only as their fields.
