# traffic-monitoring, modelled in Dafny

The Go tool samples network I/O for every local port that has an active
connection. It finds the process that owns each port and polls that
process's cumulative read/write byte counters once a second for a fixed
window. The readings go into two shared maps, `Received` and `Sent`, which
map a port to its series of samples. After the window it draws one chart
per port and direction, with one point per interval.

This project models the sequential logic under that plumbing:

- `resolver.dfy` (module `Resolver`): `getPIDByPort`, a first-match scan
  of the connection table by local port. It fails when listing the table
  fails or when no row uses the port.
- `monitor.dfy` (module `Monitor`): one polling tick (`Poll`: resolve the
  pid, look up the process, read its counters). `Samples` gives the
  readings a monitor keeps. The class `SeriesStore` holds the two maps;
  its methods `Register`, `Record` and `CheckPortTraffic` update them in
  place, as the goroutine does to the global maps.
- `render.dfy` (module `Render`): the zero-traffic guard (`Skipped`) and
  the loop that fills the point array (`BuildPoints`, specified by
  `Deltas`). `RenderAll` is the loop over one map.
- `traffic.dfy` (module `Traffic`): `main`. It lists the connections once,
  runs one monitor per connection's local port, and prepares the charts
  of both maps (`Observe`).
- `machine_ints.dfy`, `wrappers.dfy`: the Go integer widths (`uint32`,
  `int32`, `uint64`); wrapping `uint64` subtraction and addition; and
  `Option`/`Result`.

The operating system answers become data. A `Tick` holds the connection
table that `net.Connections` returned (`None` when it failed). It also
holds a map from live pids to their counters: a pid that is not in the
map is one that `process.NewProcess` rejects, and `None` is a failed
`IOCounters` call. A monitor's unbounded loop becomes a loop over the
poll outcomes of the ticks inside the window (`Outcomes`).

## Model

| member | source | states |
|---|---|---|
| `Resolver.FindPid` | main.go:72-78 | The scan returns nothing exactly when no connection uses the port. Otherwise it returns the pid of the first connection in list order whose local port is the requested one. |
| `Resolver.GetPIDByPort` | main.go:64-79 | A failed listing is an error; a port that no connection uses is a "no process" error for that port. Otherwise the result is the pid of the first matching connection. |
| `Resolver.FindPidIgnoresLaterRows` | main.go:72-76 | Once some row matches, rows appended after it never change the answer (early return on the first match). |
| `MachineInts.Sub64` | main.go:115 | Go's `uint64` subtraction: the plain difference when the counter did not go down, and the difference plus 2^64 when it did. |
| `Monitor.Poll` | main.go:32-48 | A tick fails at the pid step when the table cannot be listed or no row uses the port. Otherwise, with the first matching row's pid: a pid with no process fails the process step; a process whose counters cannot be read fails the counters step; a process with readable counters yields exactly those counters. |
| `Monitor.PollSampledMeaning` | main.go:32-48 | A tick yields a reading exactly when the first row that uses the port belongs to a process with readable counters. The reading is that process's counters. |
| `Monitor.SamplesSpec` | main.go:30-57 | The readings kept are exactly the leading successful polls: position j holds the counters of poll j, and the poll right after the last reading, if any, is a failure. |
| `Monitor.SamplesPrefix` | main.go:55-56 | The readings over the first n ticks are a prefix of the readings over all ticks. Their length is n, capped at the run's length. Later polls never change earlier entries. |
| `Monitor.SeriesStore.constructor` | main.go:18-19 | Both maps start empty. |
| `Monitor.SeriesStore.Register` | main.go:26-29 | Both series of the port become empty, even if they held data. Every other port is unchanged. The two maps keep equal key sets and equal series lengths. |
| `Monitor.SeriesStore.Record` | main.go:54-57 | One value is appended to each series of the port; a missing entry counts as Go's nil slice. The old series is a strict prefix of the new one. Every other port is unchanged. |
| `Monitor.SeriesStore.CheckPortTraffic` | main.go:25-61 | After the monitor, the port holds the received and sent values of exactly the readings before the first failed poll. A first-tick failure leaves both empty. Every other port is unchanged, and the two maps stay equal in keys and lengths. |
| `Render.Skipped` | main.go:103 | A series of at most one sample is always skipped. A drawn series has at least two samples, and its first and last samples differ. |
| `Render.DrawnHasTraffic` | main.go:102-105 | A series that passes the guard has at least one interval with a non-zero byte delta. |
| `Render.SkippedIffNoTraffic` | main.go:102-105 | For a counter that never goes down, the guard skips a non-empty series exactly when every interval delta is zero. |
| `Render.DeltaMeaning` | main.go:112-116 | There are len-1 points. Point i is at tick i+1. Its bytes are the increment when the counter rose, and 2^64 minus the drop when it fell. |
| `Render.ReplayDeltas` | main.go:112-116 | The deltas lose nothing: adding them (mod 2^64) to the first sample rebuilds the whole series. |
| `Render.ChartExample` | main.go:112-116 | [1000,1000,2024,2024] gives points (1,0), (2,1024), (3,0); [500,500,500,500] is skipped. |
| `Render.CounterDropWraps` | main.go:115 | A counter falling from 3000 to 1000 gives the delta 2^64-2000, because the subtraction wraps. |
| `Render.BuildPoints` | main.go:112-116 | A freshly allocated array of len-1 points. Entry i-1 is at tick i and holds `a[i]-a[i-1]` as `uint64` subtraction. The array equals `Deltas(a)`. |
| `Render.RenderAll` | main.go:101-124 | A port gets a chart exactly when its series passes the guard, and the chart's points are that series' deltas. The result does not depend on the order in which the map is visited. |
| `Traffic.FirstPollFailureNotDrawn` | main.go:32-36 | A monitor whose first poll fails leaves two empty series, and the guard skips both. |
| `Traffic.LaunchStep` | main.go:94-97 | Starting the monitor for one more row adds exactly that row's port to both maps. That monitor becomes the writer of its port. Every other port keeps what its earlier monitor recorded. |
| `Traffic.MonitorAll` | main.go:94-97 | After one monitor per startup row, both maps hold exactly the table's local ports. Each port's two series are what one monitor for that port recorded. |
| `Traffic.Observe` | main.go:87-148 | A failed startup listing yields nothing. Otherwise both maps hold exactly the local ports of the startup table. Each port's two series are what one monitor started for that port recorded. Both chart maps are the guarded deltas of their map. |

## Left out

- Goroutines, `sync.Mutex`, `time.Sleep` and the 60-second window: the monitors run one after another, each over a finite sequence of ticks, so no interleaving of two monitors is modelled.
- Several connections can share a local port, and the program then starts several monitors for that port. In the model they run in sequence: the last one resets the series and its readings are what remain. `Observe` states only that some monitor for the port wrote them.
- The monitor's loop runs over the sequence of poll outcomes (`Outcomes` of the ticks) rather than calling `Poll` inside the loop. The same three steps, with their early exits, are in `Poll`.
- `net.Connections`, `process.NewProcess` and `IOCounters` are operating-system queries. Their answers are inputs (`Tick`), not modelled behaviour.
- The gonum plot: titles, labels, `AddLinePoints`, `p.Save`, the file names, and `log.Fatal` on a failed save. The model stops at the point arrays that would be handed to the plot.
- The `float64(...) / 1024` conversion of each delta: floating point. Points keep the integer tick index and the `uint64` byte delta.
- Console output (`fmt.Println`, `fmt.Printf`) and the error message texts. Errors are kept as values (`ResolveError`, `Failure`).
- The order of Go's map iteration in the chart loops is unspecified. `RenderAll` picks ports in an arbitrary order, and its result is stated without any order.
