/** The search worker of address.worker.js. Its module-level variables
    `running`, `count` and `interval` become the fields of one `Worker`
    object. The timers become explicit steps: `pending` holds the
    `setTimeout(…, 0)` callbacks of `searchBatch` that have not fired yet,
    oldest first, each with the text it captured; `interval` says whether
    the once-a-second report is armed; `outbox` holds every `postMessage`
    the worker has made, in order. Wallet generation, scoring and address
    validation live in helpers that are not part of this model and come in
    as an `Oracle`. */
module AddressWorker {
  import opened Protocol

  const BATCH_SIZE: nat := 40

  /** The `data` of a message the worker receives, by its `type`. */
  datatype Command = StartCommand(text: string) | StopCommand | UnknownCommand(kind: string)

  /** What the worker posts: its per-second count, or a match. */
  datatype Report = ApsReport(aps: int) | MatchReport(found: Match)

  /** `helpers.getScore` and `helpers.isAddressValid`. */
  datatype Oracle = Oracle(score: (Wallet, string) -> int, isAddressValid: string -> bool)

  /** A wallet is reported when it scores above 0 and its address validates. */
  predicate Reportable(o: Oracle, text: string, w: Wallet)
  {
    o.score(w, text) > 0 && o.isAddressValid(w.address)
  }

  /** What one `search` posts for the wallet it drew. */
  function SearchReports(o: Oracle, text: string, w: Wallet): seq<Report>
  {
    if Reportable(o, text, w) then [MatchReport(Match(w, o.score(w, text)))] else []
  }

  /** What the first n searches of a batch post, `draw(i)` being the wallet
      the i-th search drew. */
  function BatchReports(o: Oracle, text: string, draw: nat -> Wallet, n: nat): seq<Report>
  {
    if n == 0 then [] else BatchReports(o, text, draw, n - 1) + SearchReports(o, text, draw(n - 1))
  }

  /** A batch posts a match for a drawn wallet if and only if that wallet
      scored above 0 and its address is valid, carrying that score; an
      invalid address is dropped without a trace, and there is at most one
      report per search. */
  lemma {:induction false} BatchReportsExact(o: Oracle, text: string, draw: nat -> Wallet, n: nat)
    ensures |BatchReports(o, text, draw, n)| <= n
    ensures forall r :: r in BatchReports(o, text, draw, n) <==>
      exists i :: 0 <= i < n && Reportable(o, text, draw(i)) && r == MatchReport(Match(draw(i), o.score(draw(i), text)))
  {
    if n > 0 {
      BatchReportsExact(o, text, draw, n - 1);
      var prev := BatchReports(o, text, draw, n - 1);
      var last := SearchReports(o, text, draw(n - 1));
      assert BatchReports(o, text, draw, n) == prev + last;
      forall r
        ensures r in prev + last <==>
          exists i :: 0 <= i < n && Reportable(o, text, draw(i)) && r == MatchReport(Match(draw(i), o.score(draw(i), text)))
      {
        if r in last {
          assert Reportable(o, text, draw(n - 1));
        }
        if exists i :: 0 <= i < n && Reportable(o, text, draw(i)) && r == MatchReport(Match(draw(i), o.score(draw(i), text))) {
          var i :| 0 <= i < n && Reportable(o, text, draw(i)) && r == MatchReport(Match(draw(i), o.score(draw(i), text)));
          if i == n - 1 {
            assert r in last;
          } else {
            assert r in prev;
          }
        }
      }
    }
  }

  class Worker {
    var running: bool
    var count: nat
    var interval: bool
    var pending: seq<string>
    var outbox: seq<Report>

    /** The report timer is armed exactly while the worker runs, and a
        running worker always has a batch scheduled. */
    ghost predicate Valid()
      reads this
    {
      interval == running && (running ==> pending != [])
    }

    /** The module's initial values. */
    constructor()
      ensures Valid()
      ensures !running && count == 0 && !interval && pending == [] && outbox == []
    {
      running, count, interval := false, 0, false;
      pending, outbox := [], [];
    }

    /** `onmessage`: `start` arms the loop and the timer unless already
        running, `stop` disarms both, any other type throws. */
    method OnMessage(c: Command) returns (r: Outcome)
      requires Valid()
      modifies this`running, this`interval, this`pending
      ensures Valid()
      ensures c.StartCommand? && old(running) ==> r == Done && unchanged(this)
      ensures c.StartCommand? && !old(running) ==>
        r == Done && running && interval && pending == old(pending) + [c.text]
      ensures c.StopCommand? ==> r == Done && !running && !interval && pending == old(pending)
      ensures c.StopCommand? && !old(running) ==> unchanged(this)
      ensures c.UnknownCommand? ==> r == Thrown(UnknownMessageError(c.kind)) && unchanged(this)
    {
      match c
      case StartCommand(text) =>
        if !running {
          running := true;
          pending := pending + [text];
          interval := true;
        }
        r := Done;
      case StopCommand =>
        running := false;
        if interval {
          interval := false;
        }
        r := Done;
      case UnknownCommand(kind) =>
        r := Thrown(UnknownMessageError(kind));
    }

    /** `search`: counts the attempt whatever its outcome, then reports the
        drawn wallet if it qualifies. It runs inside a batch, while the
        batch's own callback is off `pending`, so it does not require
        `Valid()`; its frame leaves every field `Valid()` reads alone. */
    method Search(o: Oracle, text: string, w: Wallet)
      modifies this`count, this`outbox
      ensures count == old(count) + 1
      ensures outbox == old(outbox) + SearchReports(o, text, w)
    {
      count := count + 1;
      var score := o.score(w, text);
      if score > 0 {
        if o.isAddressValid(w.address) {
          outbox := outbox + [MatchReport(Match(w, score))];
        }
      }
    }

    /** The oldest scheduled `searchBatch` callback fires: if the worker is
        running it performs BATCH_SIZE searches and schedules itself again
        with the same text; otherwise the chain ends having done nothing. */
    method RunBatch(o: Oracle, draw: nat -> Wallet)
      requires Valid()
      modifies this`count, this`outbox, this`pending
      ensures Valid()
      ensures old(pending) == [] ==> unchanged(this)
      ensures old(pending) != [] && old(running) ==>
        && count == old(count) + BATCH_SIZE
        && outbox == old(outbox) + BatchReports(o, old(pending)[0], draw, BATCH_SIZE)
        && pending == old(pending)[1..] + [old(pending)[0]]
      ensures old(pending) != [] && !old(running) ==>
        count == old(count) && outbox == old(outbox) && pending == old(pending)[1..]
    {
      if pending == [] {
        return;
      }
      var text := pending[0];
      pending := pending[1..];
      if running {
        for i := 0 to BATCH_SIZE
          invariant count == old(count) + i
          invariant outbox == old(outbox) + BatchReports(o, text, draw, i)
          invariant pending == old(pending)[1..]
        {
          Search(o, text, draw(i));
        }
        pending := pending + [text];
      }
    }

    /** The once-a-second timer fires, if armed: it posts the current count
        and starts counting again from 0. */
    method ReportTick()
      requires Valid()
      modifies this`count, this`outbox
      ensures Valid()
      ensures interval ==> outbox == old(outbox) + [ApsReport(old(count))] && count == 0
      ensures !interval ==> unchanged(this)
    {
      if interval {
        outbox := outbox + [ApsReport(count)];
        count := 0;
      }
    }
  }

  /** A stop followed by a start before the old loop's pending callback has
      fired leaves two loops scheduled, the old one still holding the old
      text; both of them then search in the new session. */
  method RestartKeepsStaleLoop(o: Oracle, draw: nat -> Wallet, before: string, after: string)
    returns (loops: seq<string>, searched: nat)
    ensures loops == [before, after]
    ensures searched == 2 * BATCH_SIZE
  {
    var w := new Worker();
    var r := w.OnMessage(StartCommand(before));
    r := w.OnMessage(StopCommand);
    r := w.OnMessage(StartCommand(after));
    loops := w.pending;
    w.RunBatch(o, draw);
    w.RunBatch(o, draw);
    searched := w.count;
  }

  /** `stop` does not reset `count`: what was counted after the last report
      of one session is reported by the first report of the next. */
  method CountSurvivesStop(o: Oracle, draw: nat -> Wallet, text: string)
    returns (first: Report)
    ensures first == ApsReport(BATCH_SIZE)
  {
    var w := new Worker();
    var r := w.OnMessage(StartCommand(text));
    w.RunBatch(o, draw);
    r := w.OnMessage(StopCommand);
    r := w.OnMessage(StartCommand(text));
    var before := |w.outbox|;
    w.ReportTick();
    first := w.outbox[before];
  }
}
