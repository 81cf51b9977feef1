/** The search coordinator of Main.jsx, without its rendering. The instance
    fields and the React state it reads and sets are the fields of one
    `Coordinator`; `setState` takes effect at once. The workers are known
    by their number (`workerCount`) and every `worker.postMessage` call is
    appended to `sent`. `interval` records whether the once-a-second stats
    timer is set, and `Tick` is that timer firing. The helpers that are not
    part of this model (sorting matches, sanitising terms, estimating the
    iterations needed) come in as a `Helpers` value; the hardware
    concurrency is the constant `cores`. */
module MainComponent {
  import opened Protocol
  import opened Samples
  import opened Text

  /** The statistics published to the view (`helpers.Stats`). */
  datatype Stats = Stats(aps: real, estimatedDuration: real, addressesCount: int, ignoredMatchesCount: int)

  /** `helpers.sortMatches`, `helpers.sanitizeTerms` and
      `helpers.getMinSearchIterations`. */
  datatype Helpers = Helpers(
    sortMatches: seq<Match> -> seq<Match>,
    sanitizeTerms: seq<string> -> seq<string>,
    minSearchIterations: seq<string> -> real)

  /** `Math.max(1, Math.floor(factor * cores))`: the largest whole number of
      workers within `factor * cores`, but never fewer than one; with a
      factor of at most 1 it never exceeds the number of cores (0.5 of 8
      cores is 4). */
  function ActiveWorkers(factor: real, cores: nat): (n: nat)
    ensures n >= 1
    ensures factor * cores as real >= 1.0 ==> n as real <= factor * cores as real < n as real + 1.0
    ensures factor * cores as real < 1.0 ==> n == 1
    ensures 0.0 <= factor <= 1.0 ==> n <= Max(1, cores)
  {
    var wanted := (factor * cores as real).Floor;
    ScaledWithin(factor, cores);
    if 1 < wanted then wanted else 1
  }

  lemma ScaledWithin(factor: real, cores: nat)
    ensures 0.0 <= factor <= 1.0 ==> factor * cores as real <= cores as real
  {
    if 0.0 <= factor <= 1.0 {
      assert cores as real - factor * cores as real == (1.0 - factor) * cores as real;
    }
  }

  class Coordinator {
    const cores: nat
    var workerCount: nat
    var interval: bool
    var matchingSamples: seq<int>
    var addressesCount: int
    var ignoredMatchesCount: int
    var minIterations: real
    var numWorkers: nat
    var running: bool
    var concurrencyFactor: real
    var unavailableCharsWarning: bool
    var text: string
    var matches: seq<Match>
    var stats: Stats
    var sent: seq<Delivery>

    /** The stats timer is set exactly while running, and the throughput
        window holds one to SAMPLES_COUNT samples. */
    ghost predicate Valid()
      reads this
    {
      IsWindow(matchingSamples) && interval == running
    }

    /** The statistics `getStats` reports for the current fields. */
    ghost function CurrentStats(): Stats
      reads this
    {
      var aps := Aps(matchingSamples);
      Stats(aps, EstimatedDuration(minIterations, aps), addressesCount, ignoredMatchesCount)
    }

    /** The field initialisers and the initial React state. */
    constructor(cores: nat)
      ensures Valid()
      ensures this.cores == cores && workerCount == 0 && numWorkers == 0
      ensures matchingSamples == [0] && addressesCount == 0 && ignoredMatchesCount == 0
      ensures minIterations == 1.0 && !running && concurrencyFactor == 1.0
      ensures !unavailableCharsWarning && text == [] && matches == []
      ensures stats == Stats(0.0, 0.0, 0, 0) && sent == []
    {
      this.cores := cores;
      workerCount, interval, matchingSamples := 0, false, [0];
      addressesCount, ignoredMatchesCount, minIterations, numWorkers := 0, 0, 1.0, 0;
      running, concurrencyFactor, unavailableCharsWarning, text := false, 1.0, false, [];
      matches, stats, sent := [], Stats(0.0, 0.0, 0, 0), [];
    }

    /** `componentDidMount` once the worker module has loaded: one worker
        per core is added, then the full concurrency factor 1 is applied. */
    method Mount()
      requires Valid()
      modifies this`workerCount, this`numWorkers
      ensures Valid()
      ensures workerCount == old(workerCount) + cores
      ensures numWorkers == ActiveWorkers(1.0, cores) == Max(1, cores)
    {
      for i := 0 to cores
        invariant workerCount == old(workerCount) + i
      {
        workerCount := workerCount + 1;
      }
      SetWorkerConcurrency(1.0);
    }

    /** `setWorkerConcurrency`. */
    method SetWorkerConcurrency(factor: real)
      requires Valid()
      modifies this`numWorkers
      ensures Valid()
      ensures numWorkers == ActiveWorkers(factor, cores)
    {
      numWorkers := ActiveWorkers(factor, cores);
    }

    /** `postMessage`: the message reaches, in order, exactly the workers
        whose index is below `numWorkers`. */
    method PostMessage(message: WorkerMessage)
      requires Valid()
      modifies this`sent
      ensures Valid()
      ensures sent == old(sent) + Broadcast(message, Min(numWorkers, workerCount))
    {
      for i := 0 to workerCount
        invariant sent == old(sent) + Broadcast(message, Min(numWorkers, i))
      {
        if i < numWorkers {
          sent := sent + [Delivery(i, message)];
        }
      }
    }

    /** `getStats`: the throughput is the window's sum (before the shift)
        over SAMPLES_COUNT; then a fresh sample is opened and the oldest one
        dropped when the window is full. */
    method GetStats() returns (s: Stats)
      requires Valid()
      modifies this`matchingSamples
      ensures Valid()
      ensures s == old(CurrentStats())
      ensures matchingSamples == Shift(old(matchingSamples))
    {
      var sample := SumSamples(matchingSamples);
      matchingSamples := [0] + matchingSamples;
      if |matchingSamples| > SAMPLES_COUNT {
        matchingSamples := matchingSamples[..SAMPLES_COUNT];
      }
      var aps := sample as real / SAMPLES_COUNT as real;
      s := Stats(aps, EstimatedDuration(minIterations, aps), addressesCount, ignoredMatchesCount);
    }

    /** `handleConcurrencyFactorChange`: ignored while running. */
    method HandleConcurrencyFactorChange(factor: real)
      requires Valid()
      modifies this`numWorkers, this`concurrencyFactor
      ensures Valid()
      ensures old(running) ==> unchanged(this)
      ensures !old(running) ==> numWorkers == ActiveWorkers(factor, cores) && concurrencyFactor == factor
    {
      if !running {
        SetWorkerConcurrency(factor);
        concurrencyFactor := factor;
      }
    }

    /** `handleWorkerMessage`: a match is added to the list before it is
        sorted again, statistics accumulate into the counters and the newest
        sample, an unknown type throws, and data that is not an object is
        ignored. */
    method HandleWorkerMessage(data: EventData, h: Helpers) returns (r: Outcome)
      requires Valid()
      modifies this`matches, this`addressesCount, this`ignoredMatchesCount, this`matchingSamples
      ensures Valid()
      ensures data.NotAnObject? ==> r == Done && unchanged(this)
      ensures data.Object? && data.message.MatchMessage? ==>
        && r == Done
        && matches == h.sortMatches(old(matches) + [data.message.found])
        && addressesCount == old(addressesCount) && ignoredMatchesCount == old(ignoredMatchesCount)
        && matchingSamples == old(matchingSamples)
      ensures data.Object? && data.message.StatsMessage? ==>
        && r == Done
        && addressesCount == old(addressesCount) + data.message.addresses
        && ignoredMatchesCount == old(ignoredMatchesCount) + data.message.ignoredMatches
        && matchingSamples == Record(old(matchingSamples), data.message.addresses)
        && matches == old(matches)
      ensures data.Object? && data.message.UnknownMessage? ==>
        r == Thrown(UnknownMessageError(data.message.kind)) && unchanged(this)
    {
      match data
      case NotAnObject =>
        r := Done;
      case Object(message) =>
        match message
        case MatchMessage(found) =>
          matches := h.sortMatches(matches + [found]);
          r := Done;
        case StatsMessage(addresses, ignoredMatches) =>
          addressesCount := addressesCount + addresses;
          ignoredMatchesCount := ignoredMatchesCount + ignoredMatches;
          matchingSamples := matchingSamples[0 := matchingSamples[0] + addresses];
          r := Done;
        case UnknownMessage(kind) =>
          r := Thrown(UnknownMessageError(kind));
    }

    /** `handleTextChange`. */
    method HandleTextChange(value: string)
      requires Valid()
      modifies this`text, this`unavailableCharsWarning
      ensures Valid()
      ensures text == value
      ensures unavailableCharsWarning == UnavailableCharsWarning(value)
    {
      unavailableCharsWarning := AnyIncluded(UNAVAILABLE_CHARS, value);
      text := value;
    }

    /** `handleClick` toggles the search. Starting sends the sanitised
        space-separated terms to the active workers, records the iteration
        estimate and sets the stats timer. Stopping sends `stop` to the
        active workers, clears the timer, resets the window and publishes
        statistics with no throughput and no estimate; the counters are kept. */
    method HandleClick(h: Helpers)
      requires Valid()
      modifies this`minIterations, this`sent, this`interval, this`running, this`matchingSamples, this`stats
      ensures Valid()
      ensures !old(running) ==>
        var terms := h.sanitizeTerms(Split(text, ' '));
        && running
        && minIterations == h.minSearchIterations(terms)
        && sent == old(sent) + Broadcast(Start(terms), Min(numWorkers, workerCount))
        && matchingSamples == old(matchingSamples) && stats == old(stats)
      ensures old(running) ==>
        && !running
        && sent == old(sent) + Broadcast(Stop, Min(numWorkers, workerCount))
        && matchingSamples == [0, 0]
        && stats == Stats(0.0, 0.0, addressesCount, ignoredMatchesCount)
        && minIterations == old(minIterations)
    {
      var newRunningState := !running;
      if newRunningState {
        var terms := h.sanitizeTerms(Split(text, ' '));
        minIterations := h.minSearchIterations(terms);
        PostMessage(Start(terms));
        interval := true;
        running := newRunningState;
      } else {
        PostMessage(Stop);
        if interval {
          interval := false;
        }
        matchingSamples := [0];
        running := newRunningState;
        stats := GetStats();
      }
    }

    /** The stats timer fires, if set: the view receives `getStats()`. */
    method Tick()
      requires Valid()
      modifies this`matchingSamples, this`stats
      ensures Valid()
      ensures interval ==> stats == old(CurrentStats()) && matchingSamples == Shift(old(matchingSamples))
      ensures !interval ==> unchanged(this)
    {
      if interval {
        stats := GetStats();
      }
    }
  }

  /** One second of a running search: the workers report k addresses in
      all, then the stats timer fires. */
  method OneSecond(c: Coordinator, h: Helpers, k: int)
    requires c.Valid() && c.interval
    modifies c
    ensures c.Valid() && c.interval
    ensures c.matchingSamples == Shift(Record(old(c.matchingSamples), k))
    ensures c.addressesCount == old(c.addressesCount) + k && c.ignoredMatchesCount == old(c.ignoredMatchesCount)
    ensures c.matches == old(c.matches) && c.sent == old(c.sent) && c.minIterations == old(c.minIterations)
    ensures c.numWorkers == old(c.numWorkers) && c.workerCount == old(c.workerCount) && c.text == old(c.text)
    ensures c.concurrencyFactor == old(c.concurrencyFactor) && c.unavailableCharsWarning == old(c.unavailableCharsWarning)
    ensures c.stats == Stats(Aps(Record(old(c.matchingSamples), k)), EstimatedDuration(c.minIterations, Aps(Record(old(c.matchingSamples), k))), c.addressesCount, c.ignoredMatchesCount)
  {
    var r := c.HandleWorkerMessage(Object(StatsMessage(k, 0)), h);
    c.Tick();
  }

  /** Once started, a search whose workers together report k addresses
      between consecutive timer ticks shows a throughput of exactly k on
      the third tick, while the counters keep the running total. */
  method ThroughputSettles(h: Helpers, cores: nat, k: int) returns (third: Stats)
    ensures third.aps == k as real
    ensures third.addressesCount == 3 * k && third.ignoredMatchesCount == 0
  {
    var c := new Coordinator(cores);
    c.HandleClick(h);
    assert c.matchingSamples == [0];
    OneSecond(c, h, k);
    assert c.matchingSamples == Steady([0], k, 1) by {
      assert Steady([0], k, 0) == [0];
    }
    OneSecond(c, h, k);
    assert c.matchingSamples == Steady([0], k, 2);
    ConvergesFromReset([0], k, 2);
    OneSecond(c, h, k);
    third := c.stats;
  }
}
