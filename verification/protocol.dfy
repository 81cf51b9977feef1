/** Values that cross the boundary between a coordinator (Main.jsx, App.jsx)
    and its search workers, and the broadcast that fans a command out. */
module Protocol {

  /** A generated wallet: the secret seed and the address derived from it. */
  datatype Wallet = Wallet(seed: string, address: string)

  /** A wallet whose address scored against the search terms. */
  datatype Match = Match(wallet: Wallet, score: int)

  /** Commands a coordinator posts to a worker. */
  datatype WorkerMessage = Start(terms: seq<string>) | Stop

  /** One `worker.postMessage(message)` call: the worker's index in the
      coordinator's `workers` array and the command it was handed. */
  datatype Delivery = Delivery(worker: nat, message: WorkerMessage)

  /** Messages a coordinator understands from its workers; any other `type`
      string is kept as `UnknownMessage`. */
  datatype AppMessage =
    | MatchMessage(found: Match)
    | StatsMessage(addresses: int, ignoredMatches: int)
    | UnknownMessage(kind: string)

  /** The `data` of a worker's message event: either an object carrying a
      message, or anything else (null, a number, a string, ...). */
  datatype EventData = NotAnObject | Object(message: AppMessage)

  /** How an event handler ends: normally, or by throwing an `Error`. */
  datatype Outcome = Done | Thrown(message: string)

  /** The text of the `Error` thrown for a message type nobody handles. */
  function UnknownMessageError(kind: string): string
  {
    "Unknown message " + kind
  }

  function Min(a: int, b: int): int
  {
    if a <= b then a else b
  }

  function Max(a: int, b: int): int
  {
    if a < b then b else a
  }

  /** The deliveries of posting `message` to workers 0, 1, ..., n - 1, in
      that order. */
  function Broadcast(message: WorkerMessage, n: nat): seq<Delivery>
  {
    if n == 0 then [] else Broadcast(message, n - 1) + [Delivery(n - 1, message)]
  }

  /** A broadcast to n workers makes n deliveries: each of the workers
      0, ..., n - 1 receives the message exactly once, and nobody else
      receives anything. */
  lemma {:induction false} BroadcastReachesExactly(message: WorkerMessage, n: nat)
    ensures |Broadcast(message, n)| == n
    ensures forall i :: 0 <= i < n ==> Broadcast(message, n)[i] == Delivery(i, message)
    ensures forall d :: d in Broadcast(message, n) <==> d.message == message && d.worker < n
  {
    if n > 0 {
      BroadcastReachesExactly(message, n - 1);
    }
  }
}
