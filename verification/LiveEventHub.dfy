/** The per-pod fan-out of EliteEvents.Web/Services/LiveEventHub.cs: one publisher, a short
    history, and a bounded drop-oldest queue per client. */
module LiveEventHub {
  import opened StreamEndpoint
  import opened Wrappers

  const RECENT_EVENT_CAPACITY := 40
  const CLIENT_QUEUE_CAPACITY := 100

  // ---- one client, as positions in the published log ------------------------------------

  /** The frame at `index` was dropped when frame `upto - 1` arrived, after `taken` reads. */
  datatype Drop = Drop(index: nat, upto: nat, taken: nat)

  /** A client joined at log position `join`; frames `head..upto` wait in its queue. */
  datatype Client = Client(join: nat, head: nat, upto: nat, seen: seq<nat>, drops: seq<Drop>) {
    function Waiting(): int { upto - head }

    /** The next published frame is written to the channel. */
    function Offer(): Client {
      if upto - head == CLIENT_QUEUE_CAPACITY
      then this.(head := head + 1, upto := upto + 1, drops := drops + [Drop(head, upto + 1, |seen|)])
      else this.(upto := upto + 1)
    }

    /** The client reads one frame, if there is one. */
    function Take(): Client {
      if head < upto then this.(head := head + 1, seen := seen + [head]) else this
    }

    predicate Bounded() { join <= head <= upto && Waiting() <= CLIENT_QUEUE_CAPACITY }

    ghost predicate WasRead(index: nat) { index in seen }

    ghost predicate WasDropped(index: nat) {
      exists i :: 0 <= i < |drops| && drops[i].index == index
    }

    /** Everything before the queue was either read or dropped, never both; reads are in
        publish order; and a dropped frame had a full queue of newer unread frames. */
    ghost predicate Sound() {
      && Bounded()
      && (forall index :: join <= index < head ==> (WasRead(index) <==> !WasDropped(index)))
      && (forall i :: 0 <= i < |seen| ==> join <= seen[i] < head)
      && (forall i, j :: 0 <= i < j < |seen| ==> seen[i] < seen[j])
      && (forall i :: 0 <= i < |drops| ==>
            && join <= drops[i].index < head
            && drops[i].upto == drops[i].index + CLIENT_QUEUE_CAPACITY + 1 <= upto
            && drops[i].taken <= |seen|
            && (forall k :: 0 <= k < |seen| ==> (k < drops[i].taken <==> seen[k] < drops[i].index)))
    }

    lemma TakeIsSound()
      requires Sound()
      ensures Take().Sound()
    {
      if head < upto {
        var after := Take();
        assert after.seen[|seen|] == head;
        assert !WasDropped(head) && !WasRead(head);
        forall index | join <= index < after.head
          ensures after.WasRead(index) <==> !after.WasDropped(index)
        {
          assert after.WasDropped(index) <==> WasDropped(index);
          assert after.WasRead(index) <==> WasRead(index) || index == head;
        }
      }
    }

    lemma OfferIsSound()
      requires Sound()
      ensures Offer().Sound()
    {
      var after := Offer();
      if Waiting() == CLIENT_QUEUE_CAPACITY {
        assert after.drops[|drops|] == Drop(head, upto + 1, |seen|);
        assert !WasDropped(head) && !WasRead(head);
        forall index | join <= index < after.head
          ensures after.WasRead(index) <==> !after.WasDropped(index)
        {
          assert after.WasDropped(index) <==> WasDropped(index) || index == head by {
            if WasDropped(index) {
              var i :| 0 <= i < |drops| && drops[i].index == index;
              assert after.drops[i].index == index;
            }
          }
        }
      } else {
        assert forall index :: after.WasDropped(index) <==> WasDropped(index);
      }
    }
  }

  function Joined(position: nat): Client {
    Client(position, position, position, [], [])
  }

  datatype ClientStep = Offered | Taken

  function ClientRun(client: Client, steps: seq<ClientStep>): Client {
    if steps == [] then client
    else
      var before := ClientRun(client, steps[..|steps| - 1]);
      if steps[|steps| - 1].Offered? then before.Offer() else before.Take()
  }

  /** Whatever the order of writes and reads, a client stays sound. */
  lemma {:induction false} EveryClientRunIsSound(client: Client, steps: seq<ClientStep>)
    requires client.Sound()
    ensures ClientRun(client, steps).Sound()
  {
    if steps != [] {
      EveryClientRunIsSound(client, steps[..|steps| - 1]);
      ClientRun(client, steps[..|steps| - 1]).OfferIsSound();
      ClientRun(client, steps[..|steps| - 1]).TakeIsSound();
    }
  }

  function Offers(steps: seq<ClientStep>): nat {
    if steps == [] then 0 else Offers(steps[..|steps| - 1]) + (if steps[|steps| - 1].Offered? then 1 else 0)
  }

  ghost predicate IsRun(before: Client, after: Client, steps: seq<ClientStep>, offers: int, takes: int) {
    after == ClientRun(before, steps) && Offers(steps) == offers && |steps| == offers + takes
  }

  /** So many writes and so many reads, in some order, lead from one state of a client to another. */
  ghost predicate Ran(before: Client, after: Client, offers: int, takes: int) {
    exists steps: seq<ClientStep> :: IsRun(before, after, steps, offers, takes)
  }

  lemma RanNowhere(client: Client)
    ensures Ran(client, client, 0, 0)
  {
    assert IsRun(client, client, [], 0, 0);
  }

  lemma RanOn(before: Client, after: Client, offers: int, takes: int)
    requires Ran(before, after, offers, takes)
    ensures Ran(before, after.Offer(), offers + 1, takes) && Ran(before, after.Take(), offers, takes + 1)
  {
    var steps: seq<ClientStep> :| IsRun(before, after, steps, offers, takes);
    assert (steps + [Offered])[..|steps|] == steps && (steps + [Taken])[..|steps|] == steps;
    assert IsRun(before, after.Offer(), steps + [Offered], offers + 1, takes);
    assert IsRun(before, after.Take(), steps + [Taken], offers, takes + 1);
  }

  lemma {:induction false} RunConcat(client: Client, steps: seq<ClientStep>, more: seq<ClientStep>)
    ensures ClientRun(client, steps + more) == ClientRun(ClientRun(client, steps), more)
    ensures Offers(steps + more) == Offers(steps) + Offers(more)
    decreases |more|
  {
    if more == [] {
      assert steps + more == steps;
    } else {
      assert (steps + more)[..|steps + more| - 1] == steps + more[..|more| - 1];
      RunConcat(client, steps, more[..|more| - 1]);
    }
  }

  lemma RanThen(a: Client, b: Client, c: Client, m: int, n: int, p: int, q: int)
    requires Ran(a, b, m, n) && Ran(b, c, p, q)
    ensures Ran(a, c, m + p, n + q)
  {
    var steps: seq<ClientStep> :| IsRun(a, b, steps, m, n);
    var more: seq<ClientStep> :| IsRun(b, c, more, p, q);
    RunConcat(a, steps, more);
    assert IsRun(a, c, steps + more, m + p, n + q);
  }

  /** What a client has to show for a run: every write reached it, what it had read it still
      has read, and it has read at most once per read. */
  lemma {:induction false} RunShows(client: Client, steps: seq<ClientStep>)
    ensures var after := ClientRun(client, steps);
      && after.join == client.join && after.upto == client.upto + Offers(steps)
      && client.seen <= after.seen && |after.seen| <= |client.seen| + |steps| - Offers(steps)
      && client.drops <= after.drops
  {
    if steps != [] {
      RunShows(client, steps[..|steps| - 1]);
    }
  }

  lemma RanShows(before: Client, after: Client, offers: int, takes: int)
    requires Ran(before, after, offers, takes)
    ensures after.join == before.join && after.upto == before.upto + offers
    ensures before.seen <= after.seen && |after.seen| <= |before.seen| + takes && before.drops <= after.drops
  {
    var steps: seq<ClientStep> :| IsRun(before, after, steps, offers, takes);
    RunShows(before, steps);
  }

  /** Some order of writes and reads leads from joining to this state. */
  ghost predicate Reachable(client: Client) {
    exists steps: seq<ClientStep> :: client == ClientRun(Joined(client.join), steps)
  }

  lemma ReachableJoined(position: nat)
    ensures Reachable(Joined(position))
  {
    assert Joined(position) == ClientRun(Joined(position), []);
  }

  lemma ReachableNext(client: Client)
    requires Reachable(client)
    ensures Reachable(client.Offer()) && Reachable(client.Take())
  {
    var steps: seq<ClientStep> :| client == ClientRun(Joined(client.join), steps);
    assert (steps + [Offered])[..|steps|] == steps && (steps + [Taken])[..|steps|] == steps;
    assert client.Offer() == ClientRun(Joined(client.join), steps + [Offered]);
    assert client.Take() == ClientRun(Joined(client.join), steps + [Taken]);
  }

  lemma ReachableIsSound(client: Client)
    requires Reachable(client)
    ensures client.Sound()
  {
    var steps: seq<ClientStep> :| client == ClientRun(Joined(client.join), steps);
    EveryClientRunIsSound(Joined(client.join), steps);
  }

  /** A frame is missed only when a hundred newer ones were waiting unread. */
  lemma MissedOnlyWhenBehind(client: Client, index: nat)
    requires client.Sound() && client.join <= index < client.head && !client.WasRead(index)
    ensures exists i ::
              && 0 <= i < |client.drops| && client.drops[i].index == index
              && client.drops[i].upto == index + 1 + 100
              && (forall k :: 0 <= k < client.drops[i].taken ==> client.seen[k] < index)
  {
    var i :| 0 <= i < |client.drops| && client.drops[i].index == index;
  }

  // ---- the hub --------------------------------------------------------------------------

  type ClientId = nat

  function LastOf<T>(xs: seq<T>, n: nat): seq<T> { if |xs| <= n then xs else xs[|xs| - n..] }

  lemma LastOfAppend<T>(xs: seq<T>, n: nat, x: T)
    ensures LastOf(LastOf(xs, n) + [x], n) == LastOf(xs + [x], n)
  {}

  /** Dequeues down to the capacity of the history. */
  method Trim(frames: seq<TickerFrame>) returns (queue: seq<TickerFrame>)
    ensures queue == LastOf(frames, RECENT_EVENT_CAPACITY)
  {
    queue := frames;
    while |queue| > RECENT_EVENT_CAPACITY
      invariant queue == LastOf(frames, |queue|) && |queue| <= |frames|
      invariant |queue| >= RECENT_EVENT_CAPACITY || queue == frames
    {
      queue := queue[1..];
    }
  }

  /** The queue of a bounded drop-oldest channel after a write. */
  function DropOldest(queue: seq<TickerFrame>, frame: TickerFrame): seq<TickerFrame> {
    (if |queue| == CLIENT_QUEUE_CAPACITY then queue[1..] else queue) + [frame]
  }

  function Rest(queue: seq<TickerFrame>): seq<TickerFrame> { if queue == [] then [] else queue[1..] }

  function Peek(queue: seq<TickerFrame>): Option<TickerFrame> { if queue == [] then None else Some(queue[0]) }

  // ---- the hub as a state machine -------------------------------------------------------

  datatype Request = Subscribe | Leave(id: ClientId) | Read(id: ClientId)

  /** The steps of a run: a request, a frame entering the history, the list of clients being taken,
      and a write to one of the clients on it. */
  datatype Step = Asked(request: Request) | Entered(frame: TickerFrame) | Listed | Wrote(id: ClientId)

  /** Everything published, how much of it has had its list of receivers taken, the receivers not
      written to yet, and every connected client. */
  datatype Fan = Fan(published: seq<TickerFrame>, distributed: nat, pending: set<ClientId>, nextId: nat,
                     views: map<ClientId, Client>) {
    /** How far the client has been offered the log. */
    function OfferedTo(id: ClientId): int { if id in pending then distributed - 1 else distributed }

    /** No publish is under way. */
    predicate Idle() { pending == {} && distributed == |published| }

    ghost predicate ViewOk(id: ClientId)
      requires id in views
    {
      id < nextId && views[id].Bounded() && Reachable(views[id]) && views[id].upto == OfferedTo(id) <= |published|
    }

    ghost predicate Ok() {
      && pending <= views.Keys
      && |published| - 1 <= distributed <= |published|
      && (pending != {} ==> distributed == |published| >= 1)
      && (forall id :: id in views ==> ViewOk(id))
    }

    function Ask(request: Request): Fan {
      match request
      case Subscribe => this.(views := views[nextId := Joined(distributed)], nextId := nextId + 1)
      case Leave(id) => this.(views := views - {id}, pending := pending - {id})
      case Read(id) => if id in views then this.(views := views[id := views[id].Take()]) else this
    }

    /** The state after a step; a step that is not enabled changes nothing. */
    function Next(step: Step): Fan {
      match step
      case Asked(request) => Ask(request)
      case Entered(frame) => if Idle() then this.(published := published + [frame]) else this
      case Listed =>
        if pending == {} && distributed < |published| then this.(distributed := distributed + 1, pending := views.Keys) else this
      case Wrote(id) =>
        if id in pending && id in views then this.(views := views[id := views[id].Offer()], pending := pending - {id}) else this
    }

    /** The frames waiting for a client. */
    function Queue(id: ClientId): seq<TickerFrame>
      requires id in views && views[id].head <= views[id].upto <= |published|
    {
      published[views[id].head..views[id].upto]
    }
  }

  function Play(fan: Fan, steps: seq<Step>): Fan {
    if steps == [] then fan else Play(fan, steps[..|steps| - 1]).Next(steps[|steps| - 1])
  }

  lemma {:induction false} PlayConcat(fan: Fan, steps: seq<Step>, more: seq<Step>)
    ensures Play(fan, steps + more) == Play(Play(fan, steps), more)
    decreases |more|
  {
    if more == [] {
      assert steps + more == steps;
    } else {
      assert (steps + more)[..|steps + more| - 1] == steps + more[..|more| - 1];
      PlayConcat(fan, steps, more[..|more| - 1]);
    }
  }

  lemma {:induction false} PlayAppend(start: Fan, steps: seq<Step>, step: Step)
    ensures Play(start, steps + [step]) == Play(start, steps).Next(step)
  {
    assert (steps + [step])[..|steps|] == steps;
  }

  lemma AskKeepsOk(fan: Fan, request: Request)
    requires fan.Ok()
    ensures fan.Ask(request).Ok()
  {
    var after := fan.Ask(request);
    forall id | id in after.views
      ensures after.ViewOk(id)
    {
      ReachableJoined(fan.distributed);
      if id in fan.views {
        assert fan.ViewOk(id);
        ReachableNext(fan.views[id]);
      }
    }
  }

  lemma NextKeepsOk(fan: Fan, step: Step)
    requires fan.Ok()
    ensures fan.Next(step).Ok()
  {
    if step.Asked? {
      AskKeepsOk(fan, step.request);
    } else {
      var after := fan.Next(step);
      forall id | id in after.views
        ensures after.ViewOk(id)
      {
        assert fan.ViewOk(id);
        ReachableNext(fan.views[id]);
      }
    }
  }

  // ---- what becomes of a client ---------------------------------------------------------

  function RequestOf(step: Step): seq<Request> { if step.Asked? then [step.request] else [] }

  /** The requests among the steps. */
  function RequestsOf(steps: seq<Step>): seq<Request> {
    if steps == [] then [] else RequestsOf(steps[..|steps| - 1]) + RequestOf(steps[|steps| - 1])
  }

  lemma {:induction false} RequestsConcat(steps: seq<Step>, more: seq<Step>)
    ensures RequestsOf(steps + more) == RequestsOf(steps) + RequestsOf(more)
    decreases |more|
  {
    if more == [] {
      assert steps + more == steps;
    } else {
      assert (steps + more)[..|steps + more| - 1] == steps + more[..|more| - 1];
      RequestsConcat(steps, more[..|more| - 1]);
    }
  }

  function Asks(requests: seq<Request>): seq<Step> { seq(|requests|, i requires 0 <= i < |requests| => Asked(requests[i])) }

  lemma {:induction false} RequestsOfAsks(requests: seq<Request>)
    ensures RequestsOf(Asks(requests)) == requests
  {
    if requests != [] {
      var front := requests[..|requests| - 1];
      RequestsOfAsks(front);
      assert Asks(requests)[..|requests| - 1] == Asks(front);
      assert requests == front + [requests[|requests| - 1]];
    }
  }

  function Reads(requests: seq<Request>, id: ClientId): nat {
    if requests == [] then 0
    else Reads(requests[..|requests| - 1], id) + (if requests[|requests| - 1] == Read(id) then 1 else 0)
  }

  lemma {:induction false} ReadsConcat(a: seq<Request>, b: seq<Request>, id: ClientId)
    ensures Reads(a + b, id) == Reads(a, id) + Reads(b, id)
    decreases |b|
  {
    if b == [] {
      assert a + b == a;
    } else {
      assert (a + b)[..|a + b| - 1] == a + b[..|b| - 1];
      ReadsConcat(a, b[..|b| - 1], id);
    }
  }

  /** A client that was there is gone exactly if it asked to leave; otherwise it was written to
      `offers` times and read as often as it asked. */
  ghost predicate ServedOne(before: Fan, after: Fan, id: ClientId, requests: seq<Request>, offers: int)
    requires id in before.views
  {
    && (id in after.views <==> Leave(id) !in requests)
    && (id in after.views ==> Ran(before.views[id], after.views[id], offers, Reads(requests, id)))
  }

  /** Any other client is new, and joined no earlier. */
  ghost predicate NewOne(before: Fan, after: Fan, id: ClientId)
    requires id in after.views
  {
    before.nextId <= id && before.distributed <= after.views[id].join
  }

  /** What became of every client over a stretch of a run. */
  ghost predicate Served(before: Fan, after: Fan, requests: seq<Request>) {
    && (forall id :: id in before.views ==> ServedOne(before, after, id, requests, after.OfferedTo(id) - before.OfferedTo(id)))
    && (forall id :: id in after.views && id !in before.views ==> NewOne(before, after, id))
    && before.nextId <= after.nextId && before.distributed <= after.distributed
  }

  lemma ServedNothing(fan: Fan)
    ensures Served(fan, fan, [])
  {
    forall id | id in fan.views
      ensures ServedOne(fan, fan, id, [], 0)
    {
      RanNowhere(fan.views[id]);
    }
  }

  lemma ReadsOne(request: Request, id: ClientId)
    ensures Reads([request], id) == if request == Read(id) then 1 else 0
  {
    assert [request][..0] == [] && Reads([], id) == 0;
  }

  lemma OneStepServesOne(fan: Fan, step: Step, id: ClientId)
    requires fan.Ok() && id in fan.views
    ensures ServedOne(fan, fan.Next(step), id, RequestOf(step), fan.Next(step).OfferedTo(id) - fan.OfferedTo(id))
  {
    RanNowhere(fan.views[id]);
    RanOn(fan.views[id], fan.views[id], 0, 0);
    assert fan.ViewOk(id);
    if step.Asked? {
      ReadsOne(step.request, id);
    }
  }

  lemma OneStepServes(fan: Fan, step: Step)
    requires fan.Ok()
    ensures Served(fan, fan.Next(step), RequestOf(step))
  {
    forall id | id in fan.views
      ensures ServedOne(fan, fan.Next(step), id, RequestOf(step), fan.Next(step).OfferedTo(id) - fan.OfferedTo(id))
    {
      OneStepServesOne(fan, step, id);
    }
  }

  lemma ServedThenOne(a: Fan, b: Fan, c: Fan, r: seq<Request>, s: seq<Request>, id: ClientId, m: int, n: int)
    requires id in a.views && ServedOne(a, b, id, r, m)
    requires if id in b.views then ServedOne(b, c, id, s, n) else id !in c.views
    ensures ServedOne(a, c, id, r + s, m + n)
  {
    ReadsConcat(r, s, id);
    if id in b.views && id in c.views {
      RanThen(a.views[id], b.views[id], c.views[id], m, Reads(r, id), n, Reads(s, id));
    }
  }

  lemma NewThen(a: Fan, b: Fan, c: Fan, s: seq<Request>, id: ClientId, n: int)
    requires id in b.views && NewOne(a, b, id) && id in c.views && ServedOne(b, c, id, s, n)
    ensures NewOne(a, c, id)
  {
    RanShows(b.views[id], c.views[id], n, Reads(s, id));
  }

  lemma ServedThen(a: Fan, b: Fan, c: Fan, r: seq<Request>, s: seq<Request>)
    requires a.Ok() && Served(a, b, r) && Served(b, c, s)
    ensures Served(a, c, r + s)
  {
    forall id | id in a.views
      ensures ServedOne(a, c, id, r + s, c.OfferedTo(id) - a.OfferedTo(id))
    {
      assert a.ViewOk(id);
      assert id !in b.views && id in c.views ==> NewOne(b, c, id);
      ServedThenOne(a, b, c, r, s, id, b.OfferedTo(id) - a.OfferedTo(id), c.OfferedTo(id) - b.OfferedTo(id));
    }
    forall id | id in c.views && id !in a.views
      ensures NewOne(a, c, id)
    {
      if id in b.views {
        NewThen(a, b, c, s, id, c.OfferedTo(id) - b.OfferedTo(id));
      } else {
        assert NewOne(b, c, id);
      }
    }
  }

  /** Every run, whatever the order of its steps: a client that stays is written every frame whose
      receivers are listed while it is connected, once, and reads as often as it asks. */
  lemma {:induction false} EveryRunServes(fan: Fan, steps: seq<Step>)
    requires fan.Ok()
    ensures Served(fan, Play(fan, steps), RequestsOf(steps)) && Play(fan, steps).Ok()
  {
    if steps == [] {
      ServedNothing(fan);
    } else {
      var front, last := steps[..|steps| - 1], steps[|steps| - 1];
      var middle := Play(fan, front);
      EveryRunServes(fan, front);
      OneStepServes(middle, last);
      NextKeepsOk(middle, last);
      ServedThen(fan, middle, middle.Next(last), RequestsOf(front), RequestOf(last));
    }
  }

  /** A stretch of a run, and the requests that came in during it. */
  ghost predicate Weaves(start: Fan, end: Fan, steps: seq<Step>, requests: seq<Request>) {
    end == Play(start, steps) && RequestsOf(steps) == requests
  }

  lemma WeavesOne(fan: Fan, step: Step)
    ensures Weaves(fan, fan.Next(step), [step], RequestOf(step))
  {
    assert [step][..0] == [] && Play(fan, []) == fan && RequestsOf([]) == [];
    assert RequestsOf([step]) == [] + RequestOf(step);
  }

  lemma WeavesThen(a: Fan, b: Fan, c: Fan, s: seq<Step>, t: seq<Step>, r: seq<Request>, q: seq<Request>)
    requires Weaves(a, b, s, r) && Weaves(b, c, t, q)
    ensures Weaves(a, c, s + t, r + q)
  {
    PlayConcat(a, s, t);
    RequestsConcat(s, t);
  }

  lemma WeavesRequests(fan: Fan, requests: seq<Request>)
    ensures Weaves(fan, Play(fan, Asks(requests)), Asks(requests), requests)
  {
    RequestsOfAsks(requests);
  }

  /** A step of the hub itself comes before. */
  lemma WeavesAfter(fan: Fan, step: Step, end: Fan, steps: seq<Step>, requests: seq<Request>)
    requires !step.Asked? && Weaves(fan.Next(step), end, steps, requests)
    ensures Weaves(fan, end, [step] + steps, requests)
  {
    WeavesOne(fan, step);
    WeavesThen(fan, fan.Next(step), end, [step], steps, [], requests);
    assert [] + requests == requests;
  }

  /** A step of the hub itself comes last. */
  lemma WeavesBefore(start: Fan, fan: Fan, step: Step, steps: seq<Step>, requests: seq<Request>)
    requires !step.Asked? && Weaves(start, fan, steps, requests)
    ensures Weaves(start, fan.Next(step), steps + [step], requests)
  {
    WeavesOne(fan, step);
    WeavesThen(start, fan, fan.Next(step), steps, [step], requests, []);
    assert requests + [] == requests;
  }

  /** Between two idle states the number of writes is the number of frames published. */
  ghost predicate ServedAll(before: Fan, after: Fan, requests: seq<Request>, frames: int) {
    && (forall id :: id in before.views ==> ServedOne(before, after, id, requests, frames))
    && (forall id :: id in after.views && id !in before.views ==> NewOne(before, after, id))
  }

  lemma IdleToIdle(before: Fan, after: Fan, requests: seq<Request>, frames: int)
    requires Served(before, after, requests) && before.Idle() && after.Idle()
    requires |after.published| == |before.published| + frames
    ensures ServedAll(before, after, requests, frames)
  {
    assert forall id :: after.OfferedTo(id) - before.OfferedTo(id) == frames;
  }

  lemma IdleServesAll(fan: Fan, after: Fan, steps: seq<Step>, requests: seq<Request>, frames: int)
    requires fan.Ok() && fan.Idle() && Weaves(fan, after, steps, requests) && after.Idle()
    requires |after.published| == |fan.published| + frames
    ensures ServedAll(fan, after, requests, frames)
  {
    EveryRunServes(fan, steps);
    IdleToIdle(fan, after, requests, frames);
  }

  // ---- one publish ----------------------------------------------------------------------

  /** The latest frame is due to those of the receivers that are still connected, and to nobody else. */
  ghost predicate Owing(fan: Fan, receivers: set<ClientId>) {
    && fan.pending <= receivers * fan.views.Keys && fan.distributed == |fan.published| >= 1
    && (forall id :: id in receivers ==> id < fan.nextId && (id in fan.views ==> id in fan.pending))
  }

  lemma {:induction false} RequestsKeepOwing(fan: Fan, requests: seq<Request>, receivers: set<ClientId>)
    requires Owing(fan, receivers)
    ensures Owing(Play(fan, Asks(requests)), receivers) && Play(fan, Asks(requests)).published == fan.published
  {
    if requests != [] {
      var front := requests[..|requests| - 1];
      RequestsKeepOwing(fan, front, receivers);
      assert Asks(requests)[..|requests| - 1] == Asks(front);
    }
  }

  lemma WritingPaysOne(fan: Fan, receivers: set<ClientId>, id: ClientId)
    requires Owing(fan, receivers)
    ensures Owing(fan.Next(Wrote(id)), receivers - {id}) && fan.Next(Wrote(id)).published == fan.published
  {}

  lemma ListingOwes(fan: Fan)
    requires fan.Ok() && fan.pending == {} && fan.distributed < |fan.published|
    ensures Owing(fan.Next(Listed), fan.views.Keys)
  {
    assert forall id :: id in fan.views ==> fan.ViewOk(id);
  }

  lemma {:induction false} RequestsKeepLog(fan: Fan, requests: seq<Request>)
    ensures var after := Play(fan, Asks(requests));
      && after.published == fan.published && after.distributed == fan.distributed
      && (fan.pending == {} ==> after.pending == {})
  {
    if requests != [] {
      var front := requests[..|requests| - 1];
      RequestsKeepLog(fan, front);
      assert Asks(requests)[..|requests| - 1] == Asks(front);
    }
  }

  // ---- channels -------------------------------------------------------------------------

  /** Every client's channel holds the frames its view says. */
  ghost predicate Channels(clients: map<ClientId, seq<TickerFrame>>, fan: Fan)
    requires fan.Ok()
  {
    clients.Keys == fan.views.Keys && forall id :: id in clients ==> ChannelOk(clients[id], fan, id)
  }

  ghost predicate ChannelOk(queue: seq<TickerFrame>, fan: Fan, id: ClientId)
    requires fan.Ok() && id in fan.views
  {
    assert fan.ViewOk(id);
    queue == fan.Queue(id)
  }

  lemma SliceGrows<T>(xs: seq<T>, i: nat, j: nat)
    requires i <= j < |xs|
    ensures xs[i..j + 1] == xs[i..j] + [xs[j]]
  {}

  lemma SliceShrinks<T>(xs: seq<T>, i: nat, j: nat)
    requires i < j <= |xs|
    ensures xs[i..j][1..] == xs[i + 1..j]
  {}

  /** A drop-oldest write is what the view makes of an offer. */
  lemma WriteQueue(queue: seq<TickerFrame>, view: Client, published: seq<TickerFrame>)
    requires view.Bounded() && view.upto < |published| && queue == published[view.head..view.upto]
    ensures view.Offer().upto <= |published|
    ensures DropOldest(queue, published[view.upto]) == published[view.Offer().head..view.Offer().upto]
  {
    SliceGrows(published, view.head, view.upto);
    if |queue| == CLIENT_QUEUE_CAPACITY {
      SliceGrows(published, view.head + 1, view.upto);
      SliceShrinks(published, view.head, view.upto);
    }
  }

  /** What a client reads next: the published frame at its head, if one is waiting. */
  predicate NextIs(view: Client, published: seq<TickerFrame>, frame: Option<TickerFrame>) {
    if view.head < view.upto then view.head < |published| && frame == Some(published[view.head]) else frame == None
  }

  lemma ReadQueue(queue: seq<TickerFrame>, view: Client, published: seq<TickerFrame>)
    requires view.Bounded() && view.upto <= |published| && queue == published[view.head..view.upto]
    ensures Rest(queue) == published[view.Take().head..view.Take().upto] && NextIs(view, published, Peek(queue))
  {}

  lemma EnteredQueue(published: seq<TickerFrame>, frame: TickerFrame, i: nat, j: nat)
    requires i <= j <= |published|
    ensures (published + [frame])[i..j] == published[i..j]
  {}

  // ---- the hub --------------------------------------------------------------------------

  function Rendered(json: string, html: Option<string>): seq<TickerFrame> {
    if html.Some? then [TickerFrame(json, html.value)] else []
  }

  /** An event, and the requests that come in while it is handled. */
  datatype Publication = Publication(json: string, html: Option<string>, requests: seq<Request>)

  function Frames(script: seq<Publication>): seq<TickerFrame> {
    if script == [] then []
    else Frames(script[..|script| - 1]) + Rendered(script[|script| - 1].json, script[|script| - 1].html)
  }

  function Requests(script: seq<Publication>): seq<Request> {
    if script == [] then [] else Requests(script[..|script| - 1]) + script[|script| - 1].requests
  }

  class Hub {
    /** The history, oldest first. */
    var recent: seq<TickerFrame>
    /** The channel of each connected client, oldest frame first. */
    var clients: map<ClientId, seq<TickerFrame>>
    /** Stands for `Guid.NewGuid`. */
    var nextId: ClientId
    /** The state of the run. */
    ghost var fan: Fan

    ghost predicate Valid()
      reads this
    {
      && fan.Ok()
      && recent == LastOf(fan.published, RECENT_EVENT_CAPACITY)
      && nextId == fan.nextId
      && Channels(clients, fan)
    }

    constructor ()
      ensures Valid() && fan == Fan([], 0, {}, 0, map[]) && clients == map[]
    {
      recent, clients, nextId := [], map[], 0;
      fan := Fan([], 0, {}, 0, map[]);
    }

    method SubscribeClient() returns (id: ClientId)
      requires Valid()
      modifies this`clients, this`nextId, this`fan
      ensures Valid() && fan == old(fan).Ask(Subscribe)
      ensures id !in old(clients) && clients == old(clients)[id := []]
    {
      AskKeepsOk(fan, Subscribe);
      assert forall id :: id in clients ==> ChannelOk(clients[id], fan, id) && fan.ViewOk(id);
      id := nextId;
      nextId := nextId + 1;
      fan, clients := fan.Ask(Subscribe), clients[id := []];
    }

    method Unsubscribe(id: ClientId)
      requires Valid()
      modifies this`clients, this`fan
      ensures Valid() && fan == old(fan).Ask(Leave(id)) && clients == old(clients) - {id}
    {
      AskKeepsOk(fan, Leave(id));
      assert forall id :: id in clients ==> ChannelOk(clients[id], fan, id);
      fan, clients := fan.Ask(Leave(id)), clients - {id};
    }

    /** `TryRead`: the oldest waiting frame, which is the next one in publish order. */
    method TryRead(id: ClientId) returns (frame: Option<TickerFrame>)
      requires Valid() && id in clients
      modifies this`clients, this`fan
      ensures Valid() && fan == old(fan).Ask(Read(id))
      ensures clients == old(clients)[id := Rest(old(clients)[id])]
      ensures frame == Peek(old(clients)[id]) && NextIs(old(fan).views[id], fan.published, frame)
    {
      assert ChannelOk(clients[id], fan, id) && fan.ViewOk(id);
      ReadQueue(clients[id], fan.views[id], fan.published);
      AskKeepsOk(fan, Read(id));
      frame := Peek(clients[id]);
      fan, clients := fan.Ask(Read(id)), clients[id := Rest(clients[id])];
      assert ChannelOk(clients[id], fan, id);
      assert forall other :: other in clients && other != id ==> ChannelOk(old(clients)[other], old(fan), other);
    }

    /** `TryWrite` on a bounded drop-oldest channel, for one receiver of the latest frame. */
    method Deliver(id: ClientId, frame: TickerFrame)
      requires Valid() && id in fan.pending && frame == fan.published[|fan.published| - 1]
      modifies this`clients, this`fan
      ensures Valid() && fan == old(fan).Next(Wrote(id))
      ensures id in old(clients) && clients == old(clients)[id := DropOldest(old(clients)[id], frame)]
    {
      assert ChannelOk(clients[id], fan, id) && fan.ViewOk(id);
      WriteQueue(clients[id], fan.views[id], fan.published);
      NextKeepsOk(fan, Wrote(id));
      fan, clients := fan.Next(Wrote(id)), clients[id := DropOldest(clients[id], frame)];
      assert ChannelOk(clients[id], fan, id);
      assert forall other :: other in clients && other != id ==> ChannelOk(old(clients)[other], old(fan), other);
    }

    /** One request of a client. */
    method Handle(request: Request)
      requires Valid()
      modifies this`clients, this`nextId, this`fan
      ensures Valid() && fan == old(fan).Ask(request)
    {
      match request {
        case Subscribe =>
          var newcomer := SubscribeClient();
        case Leave(id) => Unsubscribe(id);
        case Read(id) =>
          if id in clients {
            var frame := TryRead(id);
          }
      }
    }

    /** Requests that come in one after the other. */
    method HandleAll(requests: seq<Request>)
      requires Valid()
      modifies this`clients, this`nextId, this`fan
      ensures Valid() && fan == Play(old(fan), Asks(requests))
    {
      for i := 0 to |requests|
        invariant Valid() && fan == Play(old(fan), Asks(requests[..i]))
      {
        assert Asks(requests[..i + 1]) == Asks(requests[..i]) + [Asked(requests[i])];
        PlayAppend(old(fan), Asks(requests[..i]), Asked(requests[i]));
        Handle(requests[i]);
      }
      assert requests[..|requests|] == requests;
    }

    /** The section under the history lock. */
    method Remember(frame: TickerFrame)
      requires Valid() && fan.Idle()
      modifies this`recent, this`fan
      ensures Valid() && fan == old(fan).Next(Entered(frame))
    {
      NextKeepsOk(fan, Entered(frame));
      forall id | id in clients
        ensures ChannelOk(clients[id], fan.Next(Entered(frame)), id)
      {
        assert ChannelOk(clients[id], fan, id) && fan.ViewOk(id);
        EnteredQueue(fan.published, frame, fan.views[id].head, fan.views[id].upto);
      }
      LastOfAppend(fan.published, RECENT_EVENT_CAPACITY, frame);
      fan := fan.Next(Entered(frame));
      recent := Trim(recent + [frame]);
    }

    /** Taking the list of the clients connected right now. */
    ghost method List()
      requires Valid() && fan.pending == {} && fan.distributed < |fan.published|
      modifies this`fan
      ensures Valid() && fan == old(fan).Next(Listed)
    {
      NextKeepsOk(fan, Listed);
      assert forall id :: id in clients ==> ChannelOk(clients[id], fan, id);
      fan := fan.Next(Listed);
    }

    /** Writes the latest frame to one of the listed clients, unless it has gone. */
    method DeliverNext(id: ClientId, frame: TickerFrame)
      requires Valid() && (id in fan.views ==> id in fan.pending)
      requires fan.published != [] && frame == fan.published[|fan.published| - 1]
      modifies this`clients, this`fan
      ensures Valid() && fan == old(fan).Next(Wrote(id))
    {
      if id in clients {
        Deliver(id, frame);
      }
    }

    /** Some requests come in, and the frame is written to the next receiver. */
    method Turn(requests: seq<Request>, id: ClientId, frame: TickerFrame, ghost receivers: set<ClientId>)
      returns (ghost steps: seq<Step>)
      requires Valid() && Owing(fan, receivers) && id in receivers && frame == fan.published[|fan.published| - 1]
      modifies this`clients, this`nextId, this`fan
      ensures Valid() && Weaves(old(fan), fan, steps, requests)
      ensures Owing(fan, receivers - {id}) && fan.published == old(fan).published
    {
      RequestsKeepOwing(fan, requests, receivers);
      WeavesRequests(fan, requests);
      HandleAll(requests);
      WeavesBefore(old(fan), fan, Wrote(id), Asks(requests), requests);
      WritingPaysOne(fan, receivers, id);
      DeliverNext(id, frame);
      steps := Asks(requests) + [Wrote(id)];
    }

    /** Writes the latest frame to every client on the list, with requests coming in at any moment
        in between. */
    method WriteOut(receivers: set<ClientId>, frame: TickerFrame, requests: seq<Request>) returns (n: nat, ghost steps: seq<Step>)
      requires Valid() && Owing(fan, receivers) && frame == fan.published[|fan.published| - 1]
      modifies this`clients, this`nextId, this`fan
      ensures Valid() && n <= |requests| && Weaves(old(fan), fan, steps, requests[..n])
      ensures Owing(fan, {}) && fan.published == old(fan).published
    {
      var todo := receivers;
      n, steps := 0, [];
      while todo != {}
        invariant Valid() && n <= |requests| && Weaves(old(fan), fan, steps, requests[..n])
        invariant Owing(fan, todo) && fan.published == old(fan).published
        decreases todo
      {
        var m: nat :| n <= m <= |requests|;
        var id :| id in todo;
        ghost var before := fan;
        ghost var more := Turn(requests[n..m], id, frame, todo);
        WeavesThen(old(fan), before, fan, steps, more, requests[..n], requests[n..m]);
        assert requests[..n] + requests[n..m] == requests[..m];
        steps, n, todo := steps + more, m, todo - {id};
      }
    }

    /** Takes the list of clients and writes the latest frame to all of them. */
    method ListAndWrite(frame: TickerFrame, requests: seq<Request>) returns (n: nat, ghost steps: seq<Step>)
      requires Valid() && fan.pending == {} && fan.distributed + 1 == |fan.published| && frame == fan.published[fan.distributed]
      modifies this`clients, this`nextId, this`fan
      ensures Valid() && n <= |requests| && Weaves(old(fan), fan, steps, requests[..n])
      ensures fan.Idle() && fan.published == old(fan).published
    {
      var receivers := clients.Keys;
      ListingOwes(fan);
      List();
      ghost var more;
      n, more := WriteOut(receivers, frame, requests);
      WeavesAfter(old(fan), Listed, fan, more, requests[..n]);
      steps := [Listed] + more;
    }

    /** Distributes the latest frame; the requests come in before, during and after. */
    method Distribute(frame: TickerFrame, requests: seq<Request>) returns (ghost steps: seq<Step>)
      requires Valid() && fan.pending == {} && fan.distributed + 1 == |fan.published| && frame == fan.published[fan.distributed]
      modifies this`clients, this`nextId, this`fan
      ensures Valid() && Weaves(old(fan), fan, steps, requests)
      ensures fan.Idle() && fan.published == old(fan).published
    {
      var n;
      n, steps := ListAndWrite(frame, requests);
      ghost var written := fan;
      RequestsKeepLog(fan, requests[n..]);
      WeavesRequests(fan, requests[n..]);
      HandleAll(requests[n..]);
      WeavesThen(old(fan), written, fan, steps, Asks(requests[n..]), requests[..n], requests[n..]);
      assert requests[..n] + requests[n..] == requests;
      steps := steps + Asks(requests[n..]);
    }

    /** Enters a frame in the history; some requests come in. */
    method Enter(frame: TickerFrame, requests: seq<Request>) returns (ghost steps: seq<Step>)
      requires Valid() && fan.Idle()
      modifies this
      ensures Valid() && Weaves(old(fan), fan, steps, requests)
      ensures fan.pending == {} && fan.distributed == old(fan).distributed && fan.published == old(fan).published + [frame]
    {
      Remember(frame);
      RequestsKeepLog(fan, requests);
      WeavesRequests(fan, requests);
      HandleAll(requests);
      WeavesAfter(old(fan), Entered(frame), fan, Asks(requests), requests);
      steps := [Entered(frame)] + Asks(requests);
    }

    /** Enters a frame in the history, then writes it to every client connected when the list of
        clients is taken. */
    method Publish(frame: TickerFrame, requests: seq<Request>) returns (ghost steps: seq<Step>)
      requires Valid() && fan.Idle()
      modifies this
      ensures Valid() && Weaves(old(fan), fan, steps, requests)
      ensures fan.Idle() && fan.published == old(fan).published + [frame]
    {
      var n: nat :| n <= |requests|;
      ghost var first := Enter(frame, requests[..n]);
      ghost var before := fan;
      ghost var more := Distribute(frame, requests[n..]);
      WeavesThen(old(fan), before, fan, first, more, requests[..n], requests[n..]);
      assert requests[..n] + requests[n..] == requests;
      steps := first + more;
    }

    /** Publishes a frame that could be rendered; the requests come in meanwhile. */
    method PublishRendered(json: string, html: Option<string>, requests: seq<Request>) returns (ghost steps: seq<Step>)
      requires Valid() && fan.Idle()
      modifies this
      ensures Valid() && Weaves(old(fan), fan, steps, requests)
      ensures fan.Idle() && fan.published == old(fan).published + Rendered(json, html)
    {
      if html.None? {
        RequestsKeepLog(fan, requests);
        WeavesRequests(fan, requests);
        HandleAll(requests);
        steps := Asks(requests);
      } else {
        steps := Publish(TickerFrame(json, html.value), requests);
      }
    }

    /** One event, with the requests coming in at any moment in between.  A frame that cannot be
        rendered is not published. */
    method OnEvent(json: string, html: Option<string>, requests: seq<Request>) returns (ghost steps: seq<Step>)
      requires Valid() && fan.Idle()
      modifies this
      ensures Valid() && Weaves(old(fan), fan, steps, requests)
      ensures fan.Idle() && fan.published == old(fan).published + Rendered(json, html)
      ensures ServedAll(old(fan), fan, requests, |Rendered(json, html)|)
    {
      steps := PublishRendered(json, html, requests);
      IdleServesAll(old(fan), fan, steps, requests, |Rendered(json, html)|);
    }

    /** A whole run from any idle state: whatever is published, and whoever comes, reads and goes in
        the meantime, a client that stays is written every frame published, once and in order,
        and reads as often as it asks. */
    method Session(script: seq<Publication>) returns (ghost steps: seq<Step>)
      requires Valid() && fan.Idle()
      modifies this
      ensures Valid() && Weaves(old(fan), fan, steps, Requests(script))
      ensures fan.Idle() && fan.published == old(fan).published + Frames(script)
      ensures ServedAll(old(fan), fan, Requests(script), |Frames(script)|)
    {
      steps := [];
      assert script[..0] == [];
      for i := 0 to |script|
        invariant Valid() && Weaves(old(fan), fan, steps, Requests(script[..i]))
        invariant fan.Idle() && fan.published == old(fan).published + Frames(script[..i])
      {
        ghost var before := fan;
        ghost var more := OnEvent(script[i].json, script[i].html, script[i].requests);
        assert script[..i + 1][..i] == script[..i];
        WeavesThen(old(fan), before, fan, steps, more, Requests(script[..i]), script[i].requests);
        steps := steps + more;
      }
      assert script[..|script|] == script;
      IdleServesAll(old(fan), fan, steps, Requests(script), |Frames(script)|);
    }

    /** Every connected client has seen its frames in order and missed one only when it was a
        full queue behind. */
    lemma ClientsAreSound()
      requires Valid()
      ensures forall id :: id in fan.views ==> fan.views[id].Sound()
    {
      forall id | id in fan.views
        ensures fan.views[id].Sound()
      {
        assert fan.ViewOk(id);
        ReachableIsSound(fan.views[id]);
      }
    }

    /** The page's seed: the last frames, newest first. */
    method RecentFrames() returns (frames: seq<TickerFrame>)
      requires Valid()
      ensures |frames| == if |fan.published| <= 40 then |fan.published| else 40
      ensures forall i :: 0 <= i < |frames| ==> frames[i] == fan.published[|fan.published| - 1 - i]
    {
      var queue := recent;
      frames := seq(|queue|, i requires 0 <= i < |queue| => queue[|queue| - 1 - i]);
    }
  }
}
