/** The earlier search coordinator of App.jsx, without its rendering. It has
    the shape of MainComponent.Coordinator without the concurrency factor,
    the ignored-match counter or the time estimate: commands go to every
    worker, and the terms are the raw space-separated pieces of the text.
    As there, `setState` takes effect at once, `sent` records every
    `worker.postMessage` call, `interval` whether the stats timer is set,
    and `helpers.sortMatches` comes in as a parameter. */
module AppComponent {
  import opened Protocol
  import opened Samples
  import opened Text

  /** The statistics published to the view. */
  datatype Stats = Stats(aps: real, addressesCount: int)

  class Coordinator {
    const cores: nat
    var workerCount: nat
    var interval: bool
    var matchingSamples: seq<int>
    var addressesCount: int
    var running: bool
    var unavailableCharsWarning: bool
    var text: string
    var matches: seq<Match>
    var stats: Stats
    var sent: seq<Delivery>

    /** The stats timer is set exactly while running, and the throughput
        window holds one to SAMPLES_COUNT samples. */
    ghost predicate Valid()
      reads this
    {
      IsWindow(matchingSamples) && interval == running
    }

    /** The field initialisers and the initial React state. */
    constructor(cores: nat)
      ensures Valid()
      ensures this.cores == cores && workerCount == 0
      ensures matchingSamples == [0] && addressesCount == 0 && !running
      ensures !unavailableCharsWarning && text == [] && matches == []
      ensures stats == Stats(0.0, 0) && sent == []
    {
      this.cores := cores;
      workerCount, interval, matchingSamples, addressesCount := 0, false, [0], 0;
      running, unavailableCharsWarning, text := false, false, [];
      matches, stats, sent := [], Stats(0.0, 0), [];
    }

    /** `componentDidMount` once the worker module has loaded: one worker
        per core is added. */
    method Mount()
      requires Valid()
      modifies this`workerCount
      ensures Valid()
      ensures workerCount == old(workerCount) + cores
    {
      for i := 0 to cores
        invariant workerCount == old(workerCount) + i
      {
        workerCount := workerCount + 1;
      }
    }

    /** `postMessage`: every worker receives the message, in order. */
    method PostMessage(message: WorkerMessage)
      requires Valid()
      modifies this`sent
      ensures Valid()
      ensures sent == old(sent) + Broadcast(message, workerCount)
    {
      for i := 0 to workerCount
        invariant sent == old(sent) + Broadcast(message, i)
      {
        sent := sent + [Delivery(i, message)];
      }
    }

    /** `getStats`: the window's sum over SAMPLES_COUNT, then a fresh sample
        in front and the oldest one dropped when the window is full. */
    method GetStats() returns (s: Stats)
      requires Valid()
      modifies this`matchingSamples
      ensures Valid()
      ensures s == Stats(Aps(old(matchingSamples)), addressesCount)
      ensures matchingSamples == Shift(old(matchingSamples))
    {
      var sample := SumSamples(matchingSamples);
      matchingSamples := [0] + matchingSamples;
      if |matchingSamples| > SAMPLES_COUNT {
        matchingSamples := matchingSamples[..SAMPLES_COUNT];
      }
      s := Stats(sample as real / SAMPLES_COUNT as real, addressesCount);
    }

    /** `handleWorkerMessage`: a match is added before the list is sorted
        again, a statistics message adds its addresses to the counter and
        to the newest sample and nothing else, an unknown type throws, and
        data that is not an object is ignored. */
    method HandleWorkerMessage(data: EventData, sortMatches: seq<Match> -> seq<Match>) returns (r: Outcome)
      requires Valid()
      modifies this`matches, this`addressesCount, this`matchingSamples
      ensures Valid()
      ensures data.NotAnObject? ==> r == Done && unchanged(this)
      ensures data.Object? && data.message.MatchMessage? ==>
        && r == Done
        && matches == sortMatches(old(matches) + [data.message.found])
        && addressesCount == old(addressesCount) && matchingSamples == old(matchingSamples)
      ensures data.Object? && data.message.StatsMessage? ==>
        && r == Done
        && addressesCount == old(addressesCount) + data.message.addresses
        && matchingSamples == Record(old(matchingSamples), data.message.addresses)
        && matches == old(matches)
      ensures data.Object? && data.message.UnknownMessage? ==>
        r == Thrown(UnknownMessageError(data.message.kind)) && unchanged(this)
    {
      match data
      case NotAnObject =>
        r := Done;
      case Object(message) =>
        match message
        case MatchMessage(found) =>
          matches := sortMatches(matches + [found]);
          r := Done;
        case StatsMessage(addresses, _) =>
          addressesCount := addressesCount + addresses;
          matchingSamples := matchingSamples[0 := matchingSamples[0] + addresses];
          r := Done;
        case UnknownMessage(kind) =>
          r := Thrown(UnknownMessageError(kind));
    }

    /** `handleTextChange`. */
    method HandleTextChange(value: string)
      requires Valid()
      modifies this`text, this`unavailableCharsWarning
      ensures Valid()
      ensures text == value
      ensures unavailableCharsWarning == UnavailableCharsWarning(value)
    {
      unavailableCharsWarning := AnyIncluded(UNAVAILABLE_CHARS, value);
      text := value;
    }

    /** `handleClick` toggles the search. Starting sends every worker the
        space-separated pieces of the text as they are and sets the stats
        timer; stopping sends every worker `stop`, clears the timer, resets
        the window and publishes a throughput of 0, keeping the counter. */
    method HandleClick()
      requires Valid()
      modifies this`sent, this`interval, this`running, this`matchingSamples, this`stats
      ensures Valid()
      ensures !old(running) ==>
        && running
        && sent == old(sent) + Broadcast(Start(Split(text, ' ')), workerCount)
        && matchingSamples == old(matchingSamples) && stats == old(stats)
      ensures old(running) ==>
        && !running
        && sent == old(sent) + Broadcast(Stop, workerCount)
        && matchingSamples == [0, 0]
        && stats == Stats(0.0, addressesCount)
    {
      var newRunningState := !running;
      if newRunningState {
        PostMessage(Start(Split(text, ' ')));
        interval := true;
        running := newRunningState;
      } else {
        PostMessage(Stop);
        if interval {
          interval := false;
        }
        matchingSamples := [0];
        running := newRunningState;
        stats := GetStats();
      }
    }

    /** The stats timer fires, if set: the view receives `getStats()`. */
    method Tick()
      requires Valid()
      modifies this`matchingSamples, this`stats
      ensures Valid()
      ensures interval ==>
        stats == Stats(Aps(old(matchingSamples)), addressesCount) && matchingSamples == Shift(old(matchingSamples))
      ensures !interval ==> unchanged(this)
    {
      if interval {
        stats := GetStats();
      }
    }
  }

  /** Starting sends each worker, the i-th delivery to worker i, the text
      split at every space, empty pieces included, and nothing else: joining the terms a worker
      received with spaces gives back the text exactly. */
  method StartSendsRawTerms(cores: nat, value: string) returns (received: seq<Delivery>)
    ensures received == Broadcast(Start(Split(value, ' ')), cores)
    ensures |received| == cores
    ensures forall i :: 0 <= i < cores ==> received[i].worker == i
    ensures forall d :: d in received ==>
      d.message.Start? && d.message.terms == Split(value, ' ') && Join(d.message.terms, ' ') == value
  {
    var c := new Coordinator(cores);
    c.Mount();
    c.HandleTextChange(value);
    c.HandleClick();
    received := c.sent;
    BroadcastReachesExactly(Start(Split(value, ' ')), cores);
    JoinSplit(value, ' ');
  }
}
