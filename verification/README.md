# nanoaddr search engine — a Dafny model

nanoaddr searches in the browser for Nano wallet addresses that contain
words the user chose. A coordinator component starts one web worker per
core. Each worker repeatedly draws a random wallet, scores its address
against the terms and reports matches. Once a second it also reports how
many addresses it tried. The coordinator folds those reports into a list
of matches and into running statistics: addresses per second averaged over
a three-second window, and an estimated search time.

This project models three state machines from that program, each in the
imperative form its source has:

- `MainComponent.Coordinator` is the current coordinator (`Main.jsx`). It has
  a concurrency factor that decides how many workers receive commands, an
  ignored-match counter and a time estimate.
- `AppComponent.Coordinator` is the earlier coordinator (`App.jsx`). It
  broadcasts to every worker and sends the raw space-separated terms.
- `AddressWorker.Worker` is the per-worker search loop
  (`address.worker.js`). Its module-level `running`, `count` and `interval`
  variables become fields of the class.

Shared pieces are defined once:

- `Samples` holds the three-slot throughput window: `Record` adds a report,
  `Shift` is the per-tick `unshift`/`splice`, `Aps` the average and
  `EstimatedDuration` the time estimate. It also proves the convergence
  lemmas.
- `Text` models `String.prototype.split` on a space (with its inverse
  `Join`) and the unavailable-characters warning.
- `Protocol` holds the message datatypes and `Broadcast`, the list of
  deliveries made by posting one command to workers `0 .. n-1`.

Timers and messaging are explicit steps:

- `Tick` is the coordinator's one-second stats timer firing.
- `ReportTick` is the worker's one-second report.
- `RunBatch` is the oldest pending `setTimeout(…, 0)` callback of
  `searchBatch` firing.
- Every `postMessage` is appended to an outbox sequence: `sent` in the
  coordinators, `outbox` in the worker.

The helpers in `helpers.js` are not part of this model. They come in as
arrow-typed values whose behaviour is left unconstrained: fields of
`Helpers` in `MainComponent`, a `sortMatches` parameter in `AppComponent`,
and fields of `Oracle` in the worker:

- matches: `sortMatches`;
- terms: `sanitizeTerms`, `getMinSearchIterations`;
- addresses: `getScore`, `isAddressValid`.

The hardware concurrency is the constant `cores`. The random wallets of one
batch are the function `draw` (the i-th search draws `draw(i)`).

The worker is modelled on its own, not composed with the coordinators,
because the three files do not agree on the message protocol:

- The worker reads `payload.text`, but both coordinators send
  `payload.terms`.
- The worker posts type `'aps'`, which both coordinators reject as an
  unknown message.
- `Main.jsx` loads a different worker module, `nanoaddr/worker/index.worker.js`,
  which is not part of this model.

Behaviours of the code that the model makes explicit:

- **Stopping does not reset the worker's `count`.** Whatever was counted
  after the last report of one session is included in the first report of
  the next (`AddressWorker.CountSurvivesStop`).
- **A stop followed quickly by a start can leave two search loops.** If the
  start arrives before the old loop's pending callback fires, two loops stay
  scheduled, and the old one keeps the old text
  (`AddressWorker.RestartKeepsStaleLoop`).
- **Stopping a coordinator keeps its counters.** `addressesCount` and
  `ignoredMatchesCount` are not reset. Statistics that arrive after a stop
  still accumulate: no session id filters them.
- **The coordinators themselves never deduplicate matches.** A match is
  appended and the whole list handed to `helpers.sortMatches`; whether that
  helper drops duplicates is not part of this model.
- **There are no sessions.** A design with session ids would reset the
  counters on stop and drop events from an earlier session. The code keeps
  counters across stop and start and accepts every event, and the model
  follows the code.

## Model

| member | source | states |
|---|---|---|
| `Protocol.BroadcastReachesExactly` | src/nanoaddr/Main.jsx:182-184 | posting to n workers makes exactly n deliveries, the i-th to worker i; a delivery is made iff it carries the message and its worker index is below n |
| `Samples.SumSamples` | src/nanoaddr/Main.jsx:187 | the `reduce` loop returns the sum of the window |
| `Samples.Record` | src/nanoaddr/Main.jsx:226 | adding k to the newest sample raises the window total by exactly k and leaves the older samples and the length unchanged |
| `Samples.Shift` | src/nanoaddr/Main.jsx:188-189 | after `unshift(0)`/`splice(3)` the window holds 1 to 3 samples with 0 in front, followed by the old window, minus its oldest sample when it was full |
| `Samples.EstimatedDurationMeaning` | src/nanoaddr/Main.jsx:191 | the estimate is 0 when throughput is not positive, otherwise estimate × aps = minIterations × 1000 (no division by zero) |
| `Samples.WarmUp` | src/nanoaddr/Main.jsx:187-190 | from a reset window, the first tick reports (k + old sample)/3 and after two ticks the window is [0, k, k] |
| `Samples.ConvergesFromReset` | src/nanoaddr/Main.jsx:187-190 | from a reset window ([0] or [0, x]) with k addresses between ticks, every tick from the third on reports exactly k |
| `Samples.ConvergesFromAny` | src/nanoaddr/App.jsx:156-163 | from any window, every tick from the fourth on reports exactly k |
| `Text.SplitPiecesLackSeparator` | src/nanoaddr/App.jsx:214 | no piece of `text.split(' ')` contains a space |
| `Text.JoinSplit` | src/nanoaddr/App.jsx:214 | joining the pieces of a split with the separator gives back the text |
| `Text.SplitJoin` | src/nanoaddr/Main.jsx:255 | splitting the join of separator-free pieces gives back those pieces, so split is determined by its pieces |
| `Text.AnyIncludedIff` | src/nanoaddr/App.jsx:195 | `chars.some(c => text.includes(c))` holds iff some character of the text is one of chars |
| `Text.UnavailableCharsWarningIff` | src/nanoaddr/Main.jsx:239 | the warning is raised iff the text contains '0', '2', 'l' or 'v' |
| `MainComponent.ActiveWorkers` | src/nanoaddr/Main.jsx:179 | the worker count is at least 1, is the floor of factor × cores when that is at least 1, is 1 below that, and never exceeds max(1, cores) for a factor in [0, 1] |
| `MainComponent.Coordinator.constructor` | src/nanoaddr/Main.jsx:122-143 | the field initialisers and initial state: window [0], counters 0, minIterations 1, numWorkers 0, factor 1, idle |
| `MainComponent.Coordinator.Mount` | src/nanoaddr/Main.jsx:165-172 | one worker is added per core, then numWorkers becomes max(1, cores) |
| `MainComponent.Coordinator.SetWorkerConcurrency` | src/nanoaddr/Main.jsx:177-180 | numWorkers becomes the active worker count for the factor |
| `MainComponent.Coordinator.PostMessage` | src/nanoaddr/Main.jsx:182-184 | the message is delivered, in order, exactly to the workers with index below min(numWorkers, workers.length) |
| `MainComponent.Coordinator.GetStats` | src/nanoaddr/Main.jsx:186-198 | returns aps = (window sum before the shift)/3, the estimate for it and both counters; the window becomes its shift |
| `MainComponent.Coordinator.HandleConcurrencyFactorChange` | src/nanoaddr/Main.jsx:200-207 | while running nothing changes; while idle numWorkers and the factor are both set |
| `MainComponent.Coordinator.HandleWorkerMessage` | src/nanoaddr/Main.jsx:209-234 | match: exactly one match is appended before re-sorting; stats: addresses go to the count and to the newest sample, ignored matches to their counter; unknown type: throws, nothing changes; non-object data: nothing changes |
| `MainComponent.Coordinator.HandleTextChange` | src/nanoaddr/Main.jsx:236-244 | stores the text and raises the warning iff it holds an unavailable character |
| `MainComponent.Coordinator.HandleClick` | src/nanoaddr/Main.jsx:246-285 | idle: start with the sanitised split text goes to the active workers, minIterations is set, timer on; running: stop goes to the active workers, timer off, window [0, 0], published aps and estimate 0, counters kept |
| `MainComponent.Coordinator.Tick` | src/nanoaddr/Main.jsx:263-267 | while the timer is set the published stats are `getStats()`; otherwise nothing changes |
| `MainComponent.OneSecond` | src/nanoaddr/Main.jsx:223-227 | a stats message of k addresses followed by a tick records k in the window, shifts it and publishes its average; matches, sent commands, minIterations, worker counts, text, concurrency factor and warning are untouched |
| `MainComponent.ThroughputSettles` | src/nanoaddr/Main.jsx:263-267 | after starting, with k addresses reported per second, the third tick publishes aps = k and an address count of 3k |
| `AppComponent.Coordinator.constructor` | src/nanoaddr/App.jsx:105-120 | the field initialisers and initial state: window [0], count 0, idle |
| `AppComponent.Coordinator.Mount` | src/nanoaddr/App.jsx:141-147 | one worker is added per core |
| `AppComponent.Coordinator.PostMessage` | src/nanoaddr/App.jsx:152-154 | the message is delivered, in order, to every worker, with no filter |
| `AppComponent.Coordinator.GetStats` | src/nanoaddr/App.jsx:156-164 | returns aps = window sum/3 and the count; the window becomes its shift (at most 3 long, fresh 0 in front) |
| `AppComponent.Coordinator.HandleWorkerMessage` | src/nanoaddr/App.jsx:166-190 | match: appended before re-sorting; stats: addresses go to the count and the newest sample and nothing else changes; unknown type throws; non-object data is ignored |
| `AppComponent.Coordinator.HandleTextChange` | src/nanoaddr/App.jsx:192-200 | stores the text and raises the warning iff it holds an unavailable character |
| `AppComponent.Coordinator.HandleClick` | src/nanoaddr/App.jsx:202-239 | idle: start with `text.split(' ')` unsanitised goes to every worker, timer on; running: stop goes to every worker, timer off, window [0, 0], published aps 0, count kept |
| `AppComponent.Coordinator.Tick` | src/nanoaddr/App.jsx:217-221 | while the timer is set the published stats are `getStats()`; otherwise nothing changes |
| `AppComponent.StartSendsRawTerms` | src/nanoaddr/App.jsx:210-216 | starting sends exactly the broadcast of one start to workers 0 .. cores-1, delivery i to worker i, each carrying exactly the split text, whose join gives back the text |
| `AddressWorker.BatchReportsExact` | src/nanoaddr/address.worker.js:37-41 | a batch reports a match for a drawn wallet iff its score is positive and its address is valid, with that score; at most one report per search |
| `AddressWorker.Worker.constructor` | src/nanoaddr/address.worker.js:8-10 | not running, count 0, no timer, nothing scheduled or posted |
| `AddressWorker.Worker.OnMessage` | src/nanoaddr/address.worker.js:56-83 | start while running changes nothing (no second loop or timer); start while idle schedules one loop and arms the timer; stop leaves not running and no timer, and is idempotent; any other type throws and changes nothing |
| `AddressWorker.Worker.Search` | src/nanoaddr/address.worker.js:32-43 | count grows by one whatever the outcome; a match is posted only for a positive score and a valid address |
| `AddressWorker.Worker.RunBatch` | src/nanoaddr/address.worker.js:45-54 | while running, exactly 40 searches: count grows by 40, their reports are posted and the loop is rescheduled with the same text; after stop, the callback does no work and the loop ends |
| `AddressWorker.Worker.ReportTick` | src/nanoaddr/address.worker.js:62-65 | while the timer is armed, posts the current count and resets it to 0; otherwise nothing changes |
| `AddressWorker.RestartKeepsStaleLoop` | src/nanoaddr/address.worker.js:45-77 | start, stop, start before the pending callback fires leaves two loops (old text first), and both search: 80 attempts |
| `AddressWorker.CountSurvivesStop` | src/nanoaddr/address.worker.js:59-76 | stop does not reset count: the first report of the next session carries the 40 searches made before the stop |

## Left out

- Rendering is not modelled: `render`, styled-components, the global CSS of
  `componentWillMount`, `Donation.jsx` and `Input.jsx` are presentation. So is
  the button that is disabled while the text is empty, which means
  `handleClick` is modelled as callable with any text.
- Downloads (`handleDownload`) and the QR dialog (`handleShowAddress`,
  `handleShowSeed`, `handleCloseQRCodeDialog`) are I/O and UI state.
- The helpers in `helpers.js` are not part of this model. Sorting, term
  sanitising, the iteration estimate, scoring, wallet generation, address
  validation and the hardware-concurrency probe are parameters with no
  assumed behaviour. No ranking order or deduplication of `matches` is
  claimed.
- Randomness (`crypto.getRandomValues`, `getSeedArray`) is the `draw` parameter.
- Real time, `setInterval`/`setTimeout`/`clearInterval`, `new Worker`, the
  asynchronous `import()` and the message transport are not modelled;
  explicit steps stand in for them.
- `AddressWorker.Worker.RunBatch`: callbacks fire oldest first; the browser's
  scheduling among other tasks is not modelled.
- React's `setState` is asynchronous; the model applies every update at once.
  The updater passed on stop reads `getStats()` when React runs it, and
  nothing else touches the window in between.
- Numbers: counts are Dafny integers; `factor`, `aps`, `minIterations` and
  `estimatedDuration` are exact reals with `.Floor`. IEEE rounding, overflow
  and `NaN` are not modelled. A missing payload field would add `undefined`.
- `__BROWSER__` is taken to be true.
- The three machines are not composed, because their message shapes
  disagree (see above). So the model has no end-to-end property from a
  worker's report to the coordinator's statistics.
