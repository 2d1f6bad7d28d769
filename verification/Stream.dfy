/** One server-side stream connection: subscribe, page replay, bounded live queue, deduplication by id.
    `received` is everything the broker has put into this subscription so far; the subscription's own
    buffer is `received[pumped..]`. `taken` counts the live items the generator has consumed, and
    `emitted` is what has been yielded, `replayed` and `replayEnd` where the replay stopped. */
module Stream {
  import opened Events

  const PAGE_SIZE: nat := 1000

  datatype Item = Live(event: Event) | Overflow

  datatype Phase =
    | Reading
    | Sending(rest: seq<Event>, final: bool)
    | Streaming
    | Ended

  datatype Conn = Conn(
    afterId: int,
    lastSent: int,
    phase: Phase,
    received: seq<Event>,
    pumped: nat,
    taken: nat,
    queue: seq<Item>,
    pumping: bool,
    emitted: seq<Event>,
    replayed: seq<Event>,
    replayEnd: int)

  function Subscribe(afterId: int): Conn {
    Conn(afterId, afterId, Reading, [], 0, 0, [], false, [], [], afterId)
  }

  /** The broker puts an event into the subscription, unless the generator has closed it. */
  function Offer(k: Conn, e: Event): Conn {
    if k.phase.Ended? then k else k.(received := k.received + [e])
  }

  /** End of the replay: the pump task is created. */
  function GoLive(k: Conn): Conn {
    k.(phase := Streaming, pumping := true, replayed := k.emitted, replayEnd := k.lastSent)
  }

  function ReadPage(k: Conn, session: SessionId, table: seq<Event>): Conn {
    var page := ListAfter(table, session, k.lastSent, PAGE_SIZE);
    if page == [] then GoLive(k) else k.(phase := Sending(page, |page| < PAGE_SIZE))
  }

  function SendRow(k: Conn): Conn
    requires k.phase.Sending? && k.phase.rest != []
  {
    var row := k.phase.rest[0];
    var sent := k.(lastSent := row.id, emitted := k.emitted + [row]);
    if |k.phase.rest| > 1 then sent.(phase := Sending(k.phase.rest[1..], k.phase.final))
    else if k.phase.final then GoLive(sent)
    else sent.(phase := Reading)
  }

  /** `asyncio.Queue(maxsize=size)`: a size of zero or less is unbounded. */
  predicate Full(queue: seq<Item>, size: int) {
    0 < size <= |queue|
  }

  function PumpOne(k: Conn, size: int): Conn
    requires k.pumping && k.pumped < |k.received|
  {
    if Full(k.queue, size) then k.(pumped := k.pumped + 1, queue := [Overflow], pumping := false)
    else k.(pumped := k.pumped + 1, queue := k.queue + [Live(k.received[k.pumped])])
  }

  predicate Fresh(k: Conn)
    requires k.queue != []
  {
    k.queue[0].Live? && k.queue[0].event.id > k.lastSent
  }

  function Take(k: Conn): Conn
    requires k.phase.Streaming? && k.queue != []
  {
    var rest := k.(queue := k.queue[1..]);
    match k.queue[0]
    case Overflow => rest.(phase := Ended)
    case Live(e) =>
      if Fresh(k) then rest.(taken := k.taken + 1, lastSent := e.id, emitted := k.emitted + [e])
      else rest.(taken := k.taken + 1)
  }

  function TakeFrames(k: Conn): seq<Frame>
    requires k.phase.Streaming? && k.queue != []
  {
    match k.queue[0]
    case Overflow => [Reset]
    case Live(e) => if Fresh(k) then [Ev(e)] else []
  }
}
