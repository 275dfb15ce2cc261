# Telegraf's delivery path and aggregation core in Dafny

Telegraf collects metrics from inputs, runs them through aggregators and hands copies to
every output. Each output owns a ring buffer from which batches are lent out, accepted
when written and taken back when the write fails. Metrics that an input wants to have
acknowledged carry a reference count; when the last copy is finished the input is told, and
it acknowledges the message that the metrics came from. This project models that path, the
aggregators that sit on it and the data structures under it, and proves what holds over
every run, every interleaving and every input.

`dafny verify dfyconfig.toml` checks everything.

## Layout

| file | what it models |
|---|---|
| `Options.dfy`, `Seqs.dfy`, `Strings.dfy` | missing values, sequences, the order of strings |
| `BufferSpec.dfy` | the buffer as a bounded queue with one lent batch: what it promises and what it does |
| `Ring.dfy` | index arithmetic of the ring: windows, rotation, refill, overrun |
| `RingBuffer.dfy` | the ring buffer itself, a class over an array that refines the queue |
| `RunningOutput.dfy` | the write loop over the ring buffer |
| `Delivery.dfy` | tracking, fan-out to all outputs and their buffers as one step machine |
| `Consumers.dfy` | the loops of the Event Hub and AMQP consumers |
| `EndToEnd.dfy` | a consumer loop on top of the delivery machine |
| `FilterTree.dfy`, `Templating.dfy` | the template tree: on values, and as linked nodes on the heap |
| `TagList.dfy`, `Metrics.dfy` | sorted tag lists, and metrics that change them in place |
| `SeriesKey.dfy`, `SeriesGrouper.dfy` | what is hashed for a series, and the grouper built on it |
| `GnmiPath.dfy` | parsing and rendering of gNMI paths |
| `Samples.dfy`, `HistogramSpec.dfy`, `Histogram.dfy` | the histogram aggregator |
| `BasicStats.dfy` | Welford's running statistics |
| `Windows.dfy`, `RunningAggregator.dfy` | aligned times and aggregation windows |

## Where the code does not keep a promise

Each of these comes with inputs for which it fails and with the exact condition, one that can
be read off the input before the call.

- `Reject` (internal/models/buffer.go:191-238) restores the buffer if and only if it puts back
  as many metrics of the batch as fit beside the newer ones (`BufferSpec.PromiseKept`, for a
  batch that is not also stored). How many it puts back can be read off the fields before the
  call: the smaller of the size of the batch and the free slots plus the distance from `first` to
  `batchFirst` (`RingBuffer.Buffer.Reject`, in every state). As long as nothing was lost the
  number is right if and only if the buffer was not overrun while the batch was out
  (`BufferSpec.KeptUnlessOverrun`). An overrun needs more than capacity plus batch size
  additions, and not a whole number of laps beyond that; it shows in the fields, too.
  `BufferSpec.TakeBack` is what the code does in every case. `BufferSpec.VanishedExactly` says
  when metrics vanish without a `Reject()` call. `first` then falls behind the oldest metric by
  as many places as metrics were lost, for good, so later batches can go wrong without an
  overrun: `Ring.OverrunExample` and `Ring.SecondLoss` reach such states. A tracked group that
  loses a handle this way is never notified: `Delivery.LostIsNeverNotified`.
- The comment on `Write` says that metrics added while writing go out with the next call
  (internal/models/running_output.go:193-194). Newest metrics go first, so a metric that arrives
  during a write goes out with the same call if and only if the writes succeed until fewer than
  a batch of metrics is newer, before the turns run out or as many are newer as the buffer
  holds: `RunningOutput.ArrivalsGoFirst`. If nothing arrives after turn i and the metric was the
  last but k, that is turn i + 1 + k / size: `RunningOutput.ArrivalTurn`.
- A failed delivery that the Event Hub loop reads in its nested select keeps the extra token
  (plugins/inputs/eventhub_consumer/eventhub_consumer.go:322-326): `Consumers.LeakExample`.
  `Consumers.TokensAccounted` counts these tokens exactly, and they never use up the semaphore:
  `Consumers.NeverStarved`.
- The template search does not come back from a wildcard branch, so a filter that matches the
  line can be missed (internal/templating/node.go:89-93): `FilterTree.MissedMatch`. A template
  is found if and only if some filter matches that ends with the line or is not extended by a
  wildcard in other filters: `FilterTree.FoundThroughAMatch`.
- Names and tags with newlines can make the hash input of two series equal:
  `SeriesKey.NewlineCollision`. A series has the hash input of another one if and only if it
  has a tag or two newlines in its name: `SeriesKey.TwinExactly`. Points are grouped as they should be if and only if different
  keys have different ids: `SeriesGrouper.GroupPoints`.
- A `]` or `=` outside a key predicate of a gNMI path ends the parse without an error and drops
  the rest: `GnmiPath.StrayTruncates`. `GnmiPath.ParsedExactly` says from the brackets and
  equals signs of a path whether it is read, broken off or refused. In a path that is not broken
  off, text between a predicate and the next slash is dropped
  (`GnmiPath.TextBehindPredicatesDropped`), exactly if a `]` is directly followed by anything
  but a slash or a mark: `GnmiPath.IgnoredExactly`. Predicates without a name are dropped, too
  (`GnmiPath.NamelessDropped`), exactly where a `[` directly follows a slash:
  `GnmiPath.NamelessExactly`.
- The tag of a gNMI key can be overwritten by a later key. For keys without slashes that is so
  if and only if its short name is taken and a later key of the same path differs in dashes and
  underscores only: `GnmiPath.KeyFound`.
- The histogram compares tags one way only and reads a missing tag as an empty one
  (plugins/aggregators/histogram/histogram.go:318-331). The comparison is equality exactly for
  tags without an empty value: `HistogramSpec.IdenticalIsEqual`,
  `HistogramSpec.EmptyTagMistaken`. Lines are told right whatever their order is if and only
  if they do not contradict each other and none can be mistaken for a line of another metric:
  `HistogramSpec.ToldInEveryOrder`.
- `AlignTime` and `AlignDuration` promise to leave an aligned time alone. They do if and only
  if the time has no monotonic clock reading, because truncation removes the reading before
  the comparison: `Windows.AlignTimeIs`. Windows are right all the same: `Windows.FirstWindow`.
- In basicstats the difference of a field `x_non_negative` and the increase of a field `x` have
  the same name: `BasicStats.NamesClash`. `diff` is the difference between the last and the
  first value of a period; `LAST` is set once only
  (plugins/aggregators/basicstats/basicstats.go:84-93, 140).

## Model

| member | source | states |
|---|---|---|
| `BufferSpec.RunConserves` | internal/models/buffer.go:91-238 | in every state of every run of Add, Batch, Accept and Reject, the metrics put in are exactly those accepted, rejected, stored, lent out and lost, each as often as it was put in; the first loss is by a batch that comes back after an overrun |
| `BufferSpec.FinishedOnce` | internal/models/buffer.go:91-105 | a metric is in as many places as it was put in: put in once, it is never both accepted and rejected, never finished while still held, and never finished if lost |
| `BufferSpec.RejectLeavesOut` | internal/models/buffer.go:211-234 | the promise: the Reject() calls are exactly for the metrics that do not fit any more |
| `BufferSpec.LeftOut` | internal/models/buffer.go:193-238 | the promise: what does not fit is the oldest part of the older metrics and then of the batch |
| `BufferSpec.TakeBackConserves` | internal/models/buffer.go:193-238 | taking a batch back, whatever happened before: each metric is then stored, rejected or lost |
| `BufferSpec.PromiseKept` | internal/models/buffer.go:193-238 | the code does what it promises if and only if it puts back as many metrics as fit beside the newer ones, for a batch that is not also stored |
| `BufferSpec.KeptUnlessOverrun` | internal/models/buffer.go:201-203 | as long as nothing was lost, that is so if and only if the buffer was not overrun |
| `BufferSpec.TakeBackBalance` | internal/models/buffer.go:211-234 | what was stored and lent is what is stored, rejected and vanished, as multisets |
| `BufferSpec.RejectBalance` | internal/models/buffer.go:193-238 | the promise: what was stored and lent is what is stored and rejected |
| `BufferSpec.VanishedExactly` | internal/models/buffer.go:211-234 | metrics vanish if and only if more are put back than lie behind the window, or the rotation does not start although they do not fit |
| `BufferSpec.FirstLossByOverrun` | internal/models/buffer.go:201-222 | the first metrics to vanish do so after an overrun |
| `Ring.WindowPut` | internal/models/buffer.go:107-131 | every addition keeps the batch window where the index arithmetic expects it, through wrapping and overwriting |
| `Ring.WindowDist` | internal/models/buffer.go:201 | the distance from the oldest metric to `batchFirst` separates older from newer metrics if and only if the buffer was not overrun; otherwise it is what the additions since say |
| `Ring.FieldsSay` | internal/models/buffer.go:201-203 | from `first`, which lags by the lost metrics: how many metrics the code puts back, and whether the buffer was overrun |
| `Ring.MoveStep` | internal/models/buffer.go:211-222 | one step of the rotation moves one newer metric up by the restored amount and leaves every other slot as it was |
| `Ring.TurnMoves` | internal/models/buffer.go:211-222 | with room for the batch, the rotation moves every newer metric up and drops exactly the older ones it meets, newest first |
| `Ring.TurnWraps` | internal/models/buffer.go:211-222 | without room it catches up with itself: where each newer metric ends up, and which metrics it drops |
| `Ring.RefillEnd` | internal/models/buffer.go:224-234 | after the copy back, slots hold older, batch and newer metrics in order |
| `Ring.RejectOutcome` | internal/models/buffer.go:193-238 | for any ring, batch window and number to put back: what is stored then, where it starts, where it ends, and the Reject() calls |
| `Ring.BackInRing` | internal/models/buffer.go:193-238 | the same for a buffer; `first` lags behind the oldest metric by as many places as metrics were ever lost |
| `Ring.OverrunExample` | internal/models/buffer.go:112-117 | a buffer of three, a batch of two and six additions: metric 6 is neither stored, accepted nor rejected |
| `Ring.SecondLoss` | internal/models/buffer.go:193-238 | then a batch of three and one addition, without an overrun: metric 9 is lost and the promise is not kept |
| `RingBuffer.Buffer.constructor` | internal/models/buffer.go:35-77 | a new ring is an empty queue |
| `RingBuffer.Buffer.Len` | internal/models/buffer.go:80-89 | stored plus lent, never more than the capacity |
| `RingBuffer.Buffer.Put` | internal/models/buffer.go:107-131 | one addition refines append-and-drop-oldest, with the counters and the number dropped |
| `RingBuffer.Buffer.Add` | internal/models/buffer.go:133-147 | adding many refines adding one by one and returns the number dropped |
| `RingBuffer.Buffer.Batch` | internal/models/buffer.go:149-176 | lends the newest metrics, newest first, and empties their slots |
| `RingBuffer.Buffer.Accept` | internal/models/buffer.go:178-189 | the batch is accepted metric by metric and forgotten |
| `RingBuffer.Buffer.MoveOne` | internal/models/buffer.go:211-222 | one pass of the rotation loop over the array |
| `RingBuffer.Buffer.Rotate` | internal/models/buffer.go:205-222 | the loop over the array is the rotation of the slots, with its calls, for any indexes; `first` moves on with each call |
| `RingBuffer.Buffer.Refill` | internal/models/buffer.go:224-234 | the copy of the batch back into the array, in reverse, and the calls for what is not copied |
| `RingBuffer.Buffer.Reject` | internal/models/buffer.go:191-238 | in every state the array holds exactly what taking the batch back gives, with its calls; how many metrics go back and overruns read off the fields; the promise is kept if and only if that is the number that fits |
| `RunningOutput.RejectUndoesBatch` | internal/models/buffer.go:149-238 | a batch taken and given back at once leaves the buffer as it was |
| `RunningOutput.WriteEmpties` | internal/models/running_output.go:180-211 | with no additions, a successful `Write` empties the buffer, accepts every metric once, newest first, in the least number of writes |
| `RunningOutput.FailureKeepsTheRest` | internal/models/running_output.go:180-211 | if batch k+1 fails, the buffer ends as it was minus the newest k batches |
| `RunningOutput.WriteConserves` | internal/models/running_output.go:180-211 | whatever is added meanwhile and whatever the output does: at most stored / size + 1 writes, every metric stored, accepted, rejected or lost, once; metrics are lost if and only if the last write fails and its batch loses some when it comes back, and no first one is if no more arrive during a write than the buffer holds |
| `RunningOutput.ArrivalsGoFirst` | internal/models/running_output.go:193-206 | a metric that arrives during a write goes out with the same call if and only if the writes succeed until fewer than a batch are newer, in time; its place in the next batch if it goes out there |
| `RunningOutput.ArrivalTurn` | internal/models/running_output.go:193-206 | if nothing arrives later: the last arrival but k in turn i goes out if and only if k is less than the capacity, turn i + 1 + k / size is there and all writes up to it succeed |
| `RunningOutput.ArrivalExample` | internal/models/running_output.go:193-206 | one metric stored, one that arrives while it is written: both go out with the same call |
| `RunningOutput.Output.constructor` | internal/models/running_output.go:58-111 | an output starts with an empty buffer |
| `RunningOutput.Output.WriteBatch` | internal/models/running_output.go:213-228 | one batch over the ring: accepted, taken back as the code does, or nothing to do |
| `RunningOutput.Output.Write` | internal/models/running_output.go:180-211 | the loop over the ring refines the loop over the queue, result and number of writes included |
| `Delivery.StepKeepsInv` | metric/tracking.go:55-164 | every step of tracking, fan-out, buffers and finishing calls keeps the counting invariant |
| `Delivery.CountsHandles` | metric/tracking.go:133-164 | in every interleaving the reference count of a group is the number of its handles in the channel, the fan-out loop, all buffers, all lent batches, all unfinished calls and lost; it is notified at most once, and at zero exactly |
| `Delivery.NeverNegative` | metric/tracking.go:155-164 | the panic on a negative reference count is unreachable |
| `Delivery.CountersAreMarks` | metric/tracking.go:63-69 | counters count the finishing calls of the run |
| `Delivery.NotificationsAreComplete` | metric/tracking.go:71-79 | although verdict and decrement are separate atomic steps, a notification carries complete counts, and these are how often the buffers of all outputs accepted and rejected handles of the group; `Delivered()` holds if and only if no buffer ever rejected one, and if and only if each accepted every handle it was given |
| `Delivery.VerdictsAreRecorded` | internal/models/buffer.go:95-105 | in every interleaving, verdicts counted or under way are one Accept() for each handle a buffer accepted, one Reject() for each it rejected, one Drop() for each that was filtered out |
| `Delivery.AddedAreDelivered` | agent/agent.go:524-532 | what the buffer of an output was ever given is what the fan-out loop delivered in its turn and the filter kept, in that order |
| `Delivery.EachOutputOnce` | agent/agent.go:524-532 | from receiving a metric until the loop is idle again, the loop holds that metric and each output has its turn exactly once, in order |
| `Delivery.EveryOutputServed` | agent/agent.go:524-532 | when no handle of a group is left, each output was served once with each of its metrics that was not discarded before the fan-out |
| `Delivery.OutputsConserve` | internal/models/buffer.go:91-238 | in every interleaving each output accounts for all it was given |
| `Delivery.FinishedForGood` | metric/tracking.go:155-178 | once no handle is live, counters never change again for the rest of the run |
| `Delivery.StepLoses` | internal/models/buffer.go:193-238 | a step makes an output lose handles if and only if its batch comes back and loses some |
| `Delivery.LostByOverrun` | internal/models/buffer.go:193-238 | an output loses its first handles by a batch that comes back after an overrun |
| `Delivery.LostIsNeverNotified` | metric/tracking.go:155-164 | a group with a lost handle is never notified, however the run goes on |
| `Delivery.RejectBatchCounts` | internal/models/buffer.go:193-238 | a batch that comes back, in any state, keeps every handle counted |
| `Delivery.DeliverCounts` | agent/agent.go:524-532 | handing a metric to an output, kept, dropped by the filter or displacing another, keeps every handle counted |
| `Delivery.SourceCounts` | metric/tracking.go:86-139 | creating a group and copying a handle for one more output |
| `Consumers.StepKeepsInv` | plugins/inputs/eventhub_consumer/eventhub_consumer.go:278-334 | every step of either loop keeps tokens, tickets and messages accounted for |
| `Consumers.LoopIsSafe` | agent/accumulator.go:125-163 | in every run, groups not read back <= tokens held <= limit, so the "channel is full" panic is unreachable and no release of one or two tokens blocks |
| `Consumers.TokensAccounted` | plugins/inputs/amqp_consumer/amqp_consumer.go:446-534 | tokens held are one per group, message in hand and nested select, plus the leaked ones; AMQP leaks none |
| `Consumers.NeverStarved` | plugins/inputs/eventhub_consumer/eventhub_consumer.go:305-334 | with no group outstanding the loop can take a message, whatever has leaked |
| `Consumers.MessagesAccounted` | plugins/inputs/eventhub_consumer/eventhub_consumer.go:278-303 | every message taken is pending in one place, delivered or refused, never two of these; Event Hub refuses none |
| `Consumers.SettledAsTold` | plugins/inputs/amqp_consumer/amqp_consumer.go:483-534 | a message counts as delivered if and only if a notification of its group was read that says so, and was given up if and only if, in the AMQP loop, one was read that says not delivered or the message was malformed |
| `Consumers.StepSettles` | plugins/inputs/eventhub_consumer/eventhub_consumer.go:278-303 | what one step does with a message; the Event Hub loop issues one whose delivery failed again |
| `Consumers.LeakExample` | plugins/inputs/eventhub_consumer/eventhub_consumer.go:318-326 | a run that leaks a token |
| `EndToEnd.StepKeepsInv` | agent/accumulator.go:137-163 | the consumer loop and the delivery machine stay linked through every step |
| `EndToEnd.NothingGoesWrong` | agent/accumulator.go:155-163 | in every run of a consumer over any number of buffered outputs: no negative count, no second notification, no full channel, no blocked release |
| `EndToEnd.SettledOnTheTruth` | plugins/inputs/eventhub_consumer/eventhub_consumer.go:278-303 | when a notification is read, every copy for every output is finished, and it says delivered if and only if no output rejected one, that is, if and only if each output accepted all it was given |
| `EndToEnd.DeliveredIsWritten` | plugins/inputs/amqp_consumer/amqp_consumer.go:511-534 | in every run a message counts as delivered if and only if a notification was read for it when each output had accepted all it was given of it; the AMQP loop gives it up if and only if it was malformed or some output had rejected part of it |
| `EndToEnd.AgentRun` | agent/accumulator.go:137-163 | every run of the whole is a run of the delivery machine, so what holds of its runs holds here |
| `FilterTree.InsertOrdered` | internal/templating/node.go:24-48 | children stay distinct and in order, the wildcard last |
| `FilterTree.BinarySearchFinds` | internal/templating/node.go:72-82 | binary search without the wildcard finds exactly the child a scan finds |
| `FilterTree.SearchIsLookup` | internal/templating/node.go:56-97 | the search is exact-then-wildcard over the map of filters |
| `FilterTree.TreeIsMap` | internal/templating/node.go:18-97 | after any inserts, a search depends only on the latest template of each filter |
| `FilterTree.OrderDoesNotMatter` | internal/templating/node.go:24-48 | inserting distinct filters in another order finds the same templates |
| `FilterTree.SearchSound` | internal/templating/node.go:56-97 | a template found was inserted under a filter that matches the line |
| `FilterTree.ExactFilterWins` | internal/templating/node.go:80-87 | a filter without wildcards that equals the line wins |
| `FilterTree.LongestPrefix` | internal/templating/node.go:56-97 | without wildcards the longest filter that is a prefix of the line wins |
| `FilterTree.FoundThroughAMatch` | internal/templating/node.go:56-97 | a template is found if and only if some filter matches that ends with the line or is not extended by a wildcard in other filters |
| `FilterTree.ClosedFiltersMissNothing` | internal/templating/node.go:56-97 | so if every filter that others extend by a wildcard is also there with the wildcard, a template is found if and only if some filter matches |
| `FilterTree.MissedMatch` | internal/templating/node.go:89-93 | two filters and a line for which a match is missed |
| `Templating.Node.FindChild` | internal/templating/node.go:32-39 | the scan for a child with a part |
| `Templating.Node.Attach` | internal/templating/node.go:41-44 | a new child goes to its place among the linked nodes, and only this node changes |
| `Templating.Node.RecursiveInsert` | internal/templating/node.go:24-48 | insertion into linked nodes gives the tree with the filter inserted and changes no node outside the tree |
| `Templating.Node.SearchChildren` | internal/templating/node.go:76-78 | `sort.Search` over the linked children |
| `Templating.Node.RecursiveSearch` | internal/templating/node.go:56-97 | search in linked nodes is search in the tree |
| `Templating.Node.InsertFilter` | internal/templating/node.go:18-22 | from the root: the map of filters gains the filter |
| `Templating.Node.SearchLine` | internal/templating/node.go:50-54 | from the root: a lookup among the filters inserted so far |
| `Strings.LessIs` | metric/metric.go:51 | keys are ordered by the first character in which they differ, shorter ones first |
| `TagList.SetTagMap` | metric/metric.go:142-160 | setting a tag in the sorted list is updating the map |
| `TagList.DropTagMap` | metric/metric.go:180-189 | removing a tag from the list is removing it from the map |
| `TagList.Canonical` | metric/metric.go:44-51 | equal tag maps have identical lists |
| `TagList.SortTags` | metric/metric.go:44-51 | any order of reading the map gives the sorted list of it |
| `TagList.HistorySorted` | metric/metric.go:142-189 | after any history of changes to a sorted list it is strictly ascending and stands for the map |
| `TagList.HistoryCanonical` | metric/metric.go:142-189 | two histories end in the same list if and only if they end in the same map |
| `Metrics.Metric.constructor` | metric/metric.go:22-65 | a new metric has the sorted tags of the map |
| `Metrics.Metric.AddTag` | metric/metric.go:142-160 | replaces a value in place or inserts in order, by shifting |
| `Metrics.Metric.RemoveTag` | metric/metric.go:180-189 | removes a tag by shifting; other tag objects stay |
| `Metrics.Metric.Copy` | metric/metric.go:234-252 | a copy has the same tags in objects of its own |
| `Metrics.ChangeCopy` | metric/metric.go:234-252 | changing the tags of a copy, by any history of changes, never changes the original |
| `Metrics.Metric.HashInput` | metric/metric.go:262-273 | what is written to the hash, tag by tag |
| `SeriesKey.SeriesIdentity` | metric/metric.go:262-273 | for names and tags without newlines the hash input is equal if and only if name and tag map are |
| `SeriesKey.GroupIdentity` | metric/series_grouper.go:65-86 | the same with an empty line and the time in decimal behind it |
| `SeriesKey.NewlineCollision` | metric/metric.go:262-273 | families of different series with the same hash input |
| `SeriesKey.TwinExactly` | metric/metric.go:262-273 | a series has the hash input of another one if and only if it has a tag or two newlines in its name |
| `SeriesKey.DecimalInjective` | metric/series_grouper.go:84 | different times print differently |
| `SeriesGrouper.GroupsOnceInOrder` | metric/series_grouper.go:37-63 | one metric for each series and time added, in the order of first arrival |
| `SeriesGrouper.LastValueWins` | metric/series_grouper.go:46-56 | each metric holds the last value of each field |
| `SeriesGrouper.StreamIdentifies` | metric/series_grouper.go:65-86 | keys without newlines have different hash inputs |
| `SeriesGrouper.Grouper.constructor` | metric/series_grouper.go:24-29 | a new grouper has grouped nothing |
| `SeriesGrouper.Grouper.GroupID` | metric/series_grouper.go:65-86 | the id is the hash of name, sorted tags and time |
| `SeriesGrouper.Grouper.PlainKeysToldApart` | metric/series_grouper.go:65-86 | a hash without collisions tells keys without newlines apart |
| `SeriesGrouper.Grouper.Add` | metric/series_grouper.go:37-58 | adds to the metric of the key's series and time if and only if the id tells the key from those grouped before |
| `SeriesGrouper.PlainIdsDiffer` | metric/series_grouper.go:65-86 | keys without newlines have different ids under a hash without collisions |
| `SeriesGrouper.GroupPoints` | metric/series_grouper.go:37-63 | after any run of Add the metrics are one for each series and time, in first-arrival order with last values, if and only if different keys have different ids |
| `GnmiPath.ParsePath` | plugins/inputs/cisco_telemetry_gnmi/cisco_telemetry_gnmi.go:407-469 | the loop over four indexes is the character-by-character parser, errors included |
| `GnmiPath.ParseRoundTrip` | plugins/inputs/cisco_telemetry_gnmi/cisco_telemetry_gnmi.go:407-469 | parsing the text of a path gives back names, keys and values, quoted or not, with slashes in values; of a key written twice the last value |
| `GnmiPath.StrayTruncates` | plugins/inputs/cisco_telemetry_gnmi/cisco_telemetry_gnmi.go:431-439 | a stray `]` or `=`, in a name or behind predicates, drops its element and all text behind it, without an error |
| `GnmiPath.UnclosedIsAnError` | plugins/inputs/cisco_telemetry_gnmi/cisco_telemetry_gnmi.go:460-466 | a predicate that breaks off in its key or in its value is an error |
| `GnmiPath.InPlaceIs` | plugins/inputs/cisco_telemetry_gnmi/cisco_telemetry_gnmi.go:420-441 | which mark of a path is the first out of place |
| `GnmiPath.ParsedExactly` | plugins/inputs/cisco_telemetry_gnmi/cisco_telemetry_gnmi.go:412-466 | a path is parsed if and only if it is empty or starts with a slash, and its marks are in place with the last predicate closed, or the first out of place is outside a predicate; exactly then the parse breaks off silently |
| `GnmiPath.TrimIs` | plugins/inputs/cisco_telemetry_gnmi/cisco_telemetry_gnmi.go:440 | a value loses all quotation marks at both ends, and nothing else |
| `GnmiPath.TextBehindPredicatesDropped` | plugins/inputs/cisco_telemetry_gnmi/cisco_telemetry_gnmi.go:442-455 | text between the last predicate of an element and the next slash is dropped, and the rest is read |
| `GnmiPath.IgnoredIsNothing` | plugins/inputs/cisco_telemetry_gnmi/cisco_telemetry_gnmi.go:420-455 | a path with an ignored character is parsed like the path without it |
| `GnmiPath.IgnoredExactly` | plugins/inputs/cisco_telemetry_gnmi/cisco_telemetry_gnmi.go:420-455 | in a path that is not broken off, characters are ignored if and only if some `]` is directly followed by a character that is neither a slash nor a mark |
| `GnmiPath.NamelessDropped` | plugins/inputs/cisco_telemetry_gnmi/cisco_telemetry_gnmi.go:442-455 | predicates without a name are dropped, and the rest is read |
| `GnmiPath.NamelessExactly` | plugins/inputs/cisco_telemetry_gnmi/cisco_telemetry_gnmi.go:420-455 | in a path that is not broken off, predicates have no name exactly where a `[` directly follows a slash |
| `GnmiPath.HandlePath` | plugins/inputs/cisco_telemetry_gnmi/cisco_telemetry_gnmi.go:366-405 | renders prefix, origin and names; the alias is that of the longest rendered part that has one; the keys of each element, in any order, become tags |
| `GnmiPath.LastKeyStays` | plugins/inputs/cisco_telemetry_gnmi/cisco_telemetry_gnmi.go:389-399 | a tag holds the value of the last key that gets it, whatever the keys are |
| `GnmiPath.KeyFound` | plugins/inputs/cisco_telemetry_gnmi/cisco_telemetry_gnmi.go:389-399 | for keys without slashes: which tag each gets, and that it is lost if and only if its short name is taken and a later key of the same path differs in dashes and underscores only, to the last such key |
| `GnmiPath.TagsStay` | plugins/inputs/cisco_telemetry_gnmi/cisco_telemetry_gnmi.go:389-399 | a tag that was there stays, or holds the value of the last key that gets it |
| `GnmiPath.TagOverwritten` | plugins/inputs/cisco_telemetry_gnmi/cisco_telemetry_gnmi.go:389-399 | a key gets such a tag only as its long name; a key without slashes if and only if its short name is taken, too |
| `GnmiPath.SameLongNameLoses` | plugins/inputs/cisco_telemetry_gnmi/cisco_telemetry_gnmi.go:389-399 | of two keys with the same short and long name one is lost |
| `GnmiPath.RenderErasesKeys` | plugins/inputs/cisco_telemetry_gnmi/cisco_telemetry_gnmi.go:366-469 | rendering what was parsed gives the path with exactly its key predicates erased, behind prefix and origin |
| `GnmiPath.ShortIs` | plugins/inputs/cisco_telemetry_gnmi/cisco_telemetry_gnmi.go:391 | in the short name of a key each dash is an underscore and every other character stays |
| `HistogramSpec.SortSorts` | plugins/aggregators/histogram/histogram.go:284-294 | borders in use ascend and are the configured ones |
| `HistogramSpec.ChosenIs` | plugins/aggregators/histogram/histogram.go:246-294 | a field has borders if and only if the last configuration that names the metric, and the field or no field, has some; they are those, in order |
| `HistogramSpec.LineIs` | plugins/aggregators/histogram/histogram.go:175-204 | the line of a bucket: its borders under "le" and "gt", the tags of the series, and how many values lie between the borders, or not above the right one |
| `Samples.ValuesOfOne` | plugins/aggregators/histogram/histogram.go:296-306 | a float counts as its value, an integer as its own number, an unsigned one only for basicstats (plugins/aggregators/basicstats/basicstats.go:250-261), nothing else counts |
| `HistogramSpec.CumulativeCounts` | plugins/aggregators/histogram/histogram.go:183-203 | the running sum up to a border is the number of values not above it, and all values at +Inf |
| `HistogramSpec.GroupingTells` | plugins/aggregators/histogram/histogram.go:206-229 | if lines do not contradict each other and none can be mistaken, grouping tells every line under its own name and tags, nothing else, and no metric twice |
| `HistogramSpec.MistakenInSomeOrder` | plugins/aggregators/histogram/histogram.go:206-229 | a line that can be mistaken is not told in some order of the lines |
| `HistogramSpec.ToldInEveryOrder` | plugins/aggregators/histogram/histogram.go:206-229 | all lines are told in every order of the lines if and only if they do not contradict each other and none can be mistaken |
| `HistogramSpec.IdenticalIsEqual` | plugins/aggregators/histogram/histogram.go:318-331 | the comparison of tags is equality when no value is empty |
| `HistogramSpec.EmptyTagMistaken` | plugins/aggregators/histogram/histogram.go:318-331 | for all other tags it is not |
| `HistogramSpec.EmptyTagMerges` | plugins/aggregators/histogram/histogram.go:206-229 | a series with an empty tag is told under the tags of another |
| `Histogram.SortBuckets` | plugins/aggregators/histogram/histogram.go:284-294 | sorting in place only where a border does not ascend is sorting |
| `Histogram.Aggregator.SortEntry` | plugins/aggregators/histogram/histogram.go:258-294 | the slice of the configuration itself is sorted; slices sorted already, those remembered for other fields included, stay as they are |
| `Histogram.Search` | plugins/aggregators/histogram/histogram.go:151 | binary search finds the bucket whose borders enclose a value |
| `Histogram.Hit` | plugins/aggregators/histogram/histogram.go:144-155 | counts stay exact with one more value; a value that is no number only creates them |
| `Histogram.GroupField` | plugins/aggregators/histogram/histogram.go:206-229 | the scan for the metric a line belongs to |
| `Histogram.GroupFieldsByBuckets` | plugins/aggregators/histogram/histogram.go:175-204 | the loop over buckets tells the truth of each, cumulative or not, with its border tags |
| `Histogram.PushTellsTruth` | plugins/aggregators/histogram/histogram.go:160-204 | a push tells, for every bucket of every configured field seen, the number of values at most its border or between its borders; it tells nothing else and no metric twice, if its lines do not contradict each other and none can be mistaken |
| `Histogram.PlainIsEnough` | plugins/aggregators/histogram/histogram.go:183-204 | that is so for series without empty tags and bucket tags, and labels that tell their borders apart |
| `HistogramSpec.FaithfulLabelsExist` | plugins/aggregators/histogram/histogram.go:183-204 | for any borders there are labels that tell them apart |
| `Histogram.Aggregator.constructor` | plugins/aggregators/histogram/histogram.go:66-75 | a new histogram has seen nothing |
| `Histogram.Aggregator.GetBuckets` | plugins/aggregators/histogram/histogram.go:246-267 | the borders of the last configuration that applies, sorted in its own slice and remembered |
| `Histogram.Aggregator.Add` | plugins/aggregators/histogram/histogram.go:120-158 | counts are those of the history with the metric added; one more count than borders throughout |
| `Histogram.Aggregator.Push` | plugins/aggregators/histogram/histogram.go:160-173 | in any order of series and fields, what is pushed is the truth about the history since the last reset, if the lines do not contradict each other and none can be mistaken |
| `Histogram.Aggregator.Reset` | plugins/aggregators/histogram/histogram.go:231-244 | starts a new history if so configured |
| `BasicStats.UpdateDescribes` | plugins/aggregators/basicstats/basicstats.go:115-142 | Welford's update describes one more value: count, sum, mean, sum of squared deviations, extremes, difference |
| `BasicStats.StatsAreSound` | plugins/aggregators/basicstats/basicstats.go:169-178 | min <= mean <= max; the variance is the sample variance, never negative, and zero only for equal values |
| `BasicStats.StatsAreDetermined` | plugins/aggregators/basicstats/basicstats.go:115-142 | statistics are a function of the values |
| `BasicStats.TellsStat` | plugins/aggregators/basicstats/basicstats.go:148-188 | what is told of a field is what is due, by the textbook definitions |
| `BasicStats.NamesClash` | plugins/aggregators/basicstats/basicstats.go:153-184 | pushed names of different statistics are different, but for a difference and an increase of fields named alike |
| `BasicStats.ItemFound` | plugins/aggregators/basicstats/basicstats.go:150-188 | every statistic is found under its name unless it is one of these two |
| `BasicStats.ClashLoses` | plugins/aggregators/basicstats/basicstats.go:179-184 | of those two the later one is found |
| `BasicStats.PushedIs` | plugins/aggregators/basicstats/basicstats.go:148-188 | what a push holds of a field, name by name: which statistics are there and their textbook values |
| `BasicStats.Aggregator.constructor` | plugins/aggregators/basicstats/basicstats.go:30-34 | a new aggregator has seen nothing |
| `BasicStats.Aggregator.AddField` | plugins/aggregators/basicstats/basicstats.go:82-143 | a first value and a later one, for a series known or not |
| `BasicStats.Aggregator.Add` | plugins/aggregators/basicstats/basicstats.go:73-146 | the cache describes the history with the metric added |
| `BasicStats.Aggregator.Push` | plugins/aggregators/basicstats/basicstats.go:148-194 | in any order of series and fields: exactly the chosen statistics that are due of every field that had a number since the last reset, true and under their names; a series of which nothing is told is left out |
| `BasicStats.Aggregator.Reset` | plugins/aggregators/basicstats/basicstats.go:246-248 | starts a new history |
| `Windows.AlignTimeIs` | internal/internal.go:262-276 | the aligned time is the next multiple; an aligned time is returned as it is, with duration zero, if and only if it has no monotonic reading |
| `Windows.FirstWindow` | agent/agent.go:377-391 | the first window is one period long, holds the start, and ends on a multiple when rounding |
| `Windows.WindowClock` | agent/agent.go:377-391 | it has readings of the monotonic clock if and only if it is not rounded and the start has one |
| `RunningAggregator.EveryMetricOnce` | internal/models/running_aggregator.go:129-172 | over every run each metric taken in is in exactly one push or still to come; pushes hold only metrics of their window; after k pushes the window has moved k periods |
| `RunningAggregator.TakenExactly` | internal/models/running_aggregator.go:129-172 | after k pushes a metric is taken in if and only if it is selected, has fields left, and its time is at most the grace period before and the delay behind the first window moved by k periods, by the monotonic clock where both have a reading of it; otherwise it is counted as filtered or as missed |
| `RunningAggregator.WithinIs` | internal/models/running_aggregator.go:151 | which times a window lets in |
| `RunningAggregator.WindowsTile` | internal/models/running_aggregator.go:162-172 | each instant from the first window on lies in exactly one window |
| `RunningAggregator.Aggregator.constructor` | agent/agent.go:405-410 | an aggregator starts in the window the agent gives it |
| `RunningAggregator.Aggregator.Add` | internal/models/running_aggregator.go:129-160 | a metric is ignored, filtered, left out as too old or too new, or taken in; whether the original is dropped |
| `RunningAggregator.Aggregator.Push` | internal/models/running_aggregator.go:162-172 | pushes what was taken in, resets, and moves the window on by one period |

## Left out

- RunningOutput.Output.Write: `Output.Write` is a choice of success or failure; additions by other goroutines happen before a batch is taken and while it is written.
- Consumers.StepKeepsInv: acknowledgements to the broker always succeed; a malformed AMQP message, which is acknowledged (plugins/inputs/amqp_consumer/amqp_consumer.go:484-492), counts as given up; reconnects and shutdown of the broker are not modelled.
- RingBuffer.Buffer.Batch: the slice that is returned is a sequence; its sharing with the caller is not modelled.
- RingBuffer.Buffer.constructor: demands a capacity of at least one; with none an addition indexes an empty array.
- Histogram.Aggregator.Push: series are identified by name and tags, as by a hash without collisions; `strconv.FormatFloat` is a parameter.
- BasicStats.Aggregator.Push: reading the names of the statistics to push from the configuration is not modelled; the square root is a parameter.
- GnmiPath.ParsePath: the deprecated `Element` strings, the target and the origin of the parsed path are not modelled.
- Templating.Node.InsertFilter: filters and lines come split at the separator.
- SeriesGrouper.Grouper.Add: the hash is a function of what is written to it.
- RunningAggregator.Aggregator.Add: filters are two inputs, whether the metric is selected and whether fields are left; the plugin is the list of metrics it took in since its last reset.
- Tracking, fan-out and the consumer loops are step machines on values rather than classes: their steps interleave, which a class with one caller could not show. Atomic operations are single steps.
- Overflow of the 32-bit reference count, floating-point rounding, NaN and infinities: counts are unbounded, floats are exact numbers.
- Timers, jitter, `flushLoop` and shutdown: no claim that a last `Write` happens.
- `AggregatingOutput`, processors, include and exclude filters, `newMetricsCount` and the batch-ready signal, `RemoveField`, other metric fields and value types.
- The `cloud_pubsub_push` input, whose early returns keep their token, and all other inputs.
- Configuration, logging, self-monitoring and the plugin registry.
