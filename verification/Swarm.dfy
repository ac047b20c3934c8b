/** Swarm integration of the bootstrap controller (crates/resurrect-libp2p/src/behaviour.rs). */
module Swarm {
  import opened Common
  import opened Candidates

  type PeerId = nat
  type Multiaddr = string

  /** Library parsing of identity bytes and endpoint text: any deterministic partial functions. */
  datatype Parsers = Parsers(peerOf: seq<byte> -> Option<PeerId>, addressOf: string -> Option<Multiaddr>)

  /** A dial request; `id` stands for its one-shot reply channel. */
  datatype DialRequest = DialRequest(id: nat, peer: Candidate)

  datatype Rejection = RejectedRecordType | RejectedPeerId | NoDialableEndpoint

  datatype Event = Dialing(peer: PeerId) | Connected(peer: PeerId) | DialFailed(peer: PeerId) | Rejected(reason: Rejection)

  datatype Action = Dial(target: PeerId, addresses: seq<Multiaddr>) | GenerateEvent(event: Event)

  /** One answer sent to a request, with the connectivity published at that moment. */
  datatype Delivery = Delivery(request: DialRequest, dialed: bool, published: nat, connected: set<PeerId>)

  datatype SwarmEvent =
    | ConnectionEstablished(peer: PeerId)
    | ConnectionClosed(peer: PeerId, remainingEstablished: nat)
    | DialFailure(failed: Option<PeerId>)
    | OtherEvent

  /** The behaviour's fields, the requests its channel still holds, the answers it has sent
      and the actions it has handed to the swarm. */
  datatype State = State(
    waiters: map<PeerId, seq<DialRequest>>,
    connected: set<PeerId>,
    published: nat,
    queue: seq<Action>,
    dials: seq<DialRequest>,
    deliveries: seq<Delivery>,
    returned: seq<Action>)
  {
    function Enqueue(actions: seq<Action>): State {
      this.(queue := queue + actions)
    }

    function Answer(requests: seq<DialRequest>, dialed: bool): State {
      this.(deliveries := deliveries + Deliveries(requests, dialed, published, connected))
    }

    /** Everything ever enqueued, in order. */
    function Log(): seq<Action> {
      returned + queue
    }
  }

  const INITIAL: State := State(map[], {}, 0, [], [], [], [])

  function Deliveries(requests: seq<DialRequest>, dialed: bool, published: nat, connected: set<PeerId>): (r: seq<Delivery>)
    ensures |r| == |requests|
  {
    seq(|requests|, i requires 0 <= i < |requests| => Delivery(requests[i], dialed, published, connected))
  }

  function AfterResolve(s: State, peer: PeerId, dialed: bool): State {
    if peer in s.waiters then s.(waiters := s.waiters - {peer}).Answer(s.waiters[peer], dialed) else s
  }

  function AfterReject(s: State, request: DialRequest, rejection: Rejection): State {
    s.Answer([request], false).Enqueue([GenerateEvent(Rejected(rejection))])
  }

  function Waiting(s: State, peer: PeerId): seq<DialRequest> {
    if peer in s.waiters then s.waiters[peer] else []
  }

  function AfterAccept(parsers: Parsers, s: State, request: DialRequest): State {
    if request.peer.recordType != RECORD_TYPE_LIBP2P then AfterReject(s, request, RejectedRecordType)
    else
      match parsers.peerOf(request.peer.peerId)
      case None => AfterReject(s, request, RejectedPeerId)
      case Some(peer) =>
        if peer in s.connected then s.Answer([request], true)
        else
          var addresses := Parsed(parsers.addressOf, request.peer.endpoints);
          if addresses == [] then AfterReject(s, request, NoDialableEndpoint)
          else
            s.(waiters := s.waiters[peer := Waiting(s, peer) + [request]])
            .Enqueue([Dial(peer, addresses), GenerateEvent(Dialing(peer))])
  }

  function AfterSwarmEvent(s: State, event: SwarmEvent): State {
    match event
    case ConnectionEstablished(peer) =>
      var s1 := if peer in s.connected then s else s.(connected := s.connected + {peer}, published := |s.connected + {peer}|);
      if peer in s.waiters then AfterResolve(s1, peer, true).Enqueue([GenerateEvent(Connected(peer))]) else s1
    case ConnectionClosed(peer, remaining) =>
      if remaining == 0 && peer in s.connected then
        s.(connected := s.connected - {peer}, published := |s.connected - {peer}|)
      else s
    case DialFailure(failed) =>
      if failed.Some? && failed.value in s.waiters then
        AfterResolve(s, failed.value, false).Enqueue([GenerateEvent(DialFailed(failed.value))])
      else s
    case OtherEvent => s
  }

  /** One poll, during which at most `ready` receives succeed. */
  function AfterPoll(parsers: Parsers, s: State, ready: nat): (State, Option<Action>)
    decreases ready
  {
    if s.queue != [] then (s.(queue := s.queue[1..], returned := s.returned + [s.queue[0]]), Some(s.queue[0]))
    else if ready == 0 || s.dials == [] then (s, None)
    else AfterPoll(parsers, AfterAccept(parsers, s.(dials := s.dials[1..]), s.dials[0]), ready - 1)
  }

  // ----- The behaviour as it runs -----

  class Behaviour {
    const parsers: Parsers
    var waiters: map<PeerId, seq<DialRequest>>
    var connected: set<PeerId>
    /** The count shared with the connector half. */
    var published: nat
    var queue: seq<Action>
    /** The receiving end of the request channel. */
    var dials: seq<DialRequest>
    /** Sends on one-shot channels, in order. */
    var deliveries: seq<Delivery>
    ghost var returned: seq<Action>

    ghost function Now(): State
      reads this
    {
      State(waiters, connected, published, queue, dials, deliveries, returned)
    }

    constructor (parsers: Parsers)
      ensures Now() == INITIAL && this.parsers == parsers
    {
      this.parsers := parsers;
      waiters, connected, published, queue, dials, deliveries, returned := map[], {}, 0, [], [], [], [];
    }

    method Send(request: DialRequest, dialed: bool)
      modifies this`deliveries
      ensures Now() == old(Now()).Answer([request], dialed)
    {
      deliveries := deliveries + [Delivery(request, dialed, published, connected)];
      assert deliveries == old(deliveries) + Deliveries([request], dialed, published, connected);
    }

    method Resolve(peer: PeerId, dialed: bool)
      modifies this
      ensures Now() == AfterResolve(old(Now()), peer, dialed)
    {
      if peer in waiters {
        var taken := waiters[peer];
        waiters := waiters - {peer};
        var i := 0;
        while i < |taken|
          invariant 0 <= i <= |taken|
          invariant waiters == old(waiters) - {peer} && connected == old(connected) && published == old(published)
          invariant queue == old(queue) && dials == old(dials) && returned == old(returned)
          invariant deliveries == old(deliveries) + Deliveries(taken[..i], dialed, published, connected)
        {
          Send(taken[i], dialed);
          assert Deliveries(taken[..i + 1], dialed, published, connected)
              == Deliveries(taken[..i], dialed, published, connected) + Deliveries([taken[i]], dialed, published, connected);
          i := i + 1;
        }
        assert taken[..i] == taken;
      }
    }

    method Reject(request: DialRequest, rejection: Rejection)
      modifies this
      ensures Now() == AfterReject(old(Now()), request, rejection)
    {
      Send(request, false);
      queue := queue + [GenerateEvent(Rejected(rejection))];
    }

    method Accept(request: DialRequest)
      modifies this
      ensures Now() == AfterAccept(parsers, old(Now()), request)
    {
      if request.peer.recordType != RECORD_TYPE_LIBP2P {
        Reject(request, RejectedRecordType);
        return;
      }
      var peerId := parsers.peerOf(request.peer.peerId);
      if peerId.None? {
        Reject(request, RejectedPeerId);
        return;
      }
      var peer := peerId.value;
      if peer in connected {
        Send(request, true);
        return;
      }
      var addresses := Parsed(parsers.addressOf, request.peer.endpoints);
      if addresses == [] {
        Reject(request, NoDialableEndpoint);
        return;
      }
      waiters := waiters[peer := (if peer in waiters then waiters[peer] else []) + [request]];
      queue := queue + [Dial(peer, addresses)];
      queue := queue + [GenerateEvent(Dialing(peer))];
      assert queue == old(queue) + [Dial(peer, addresses), GenerateEvent(Dialing(peer))];
    }

    method OnSwarmEvent(event: SwarmEvent)
      modifies this
      ensures Now() == AfterSwarmEvent(old(Now()), event)
    {
      match event {
        case ConnectionEstablished(peer) =>
          if peer !in connected {
            connected := connected + {peer};
            published := |connected|;
          }
          if peer in waiters {
            Resolve(peer, true);
            queue := queue + [GenerateEvent(Connected(peer))];
          }
        case ConnectionClosed(peer, remaining) =>
          if remaining == 0 {
            if peer in connected {
              connected := connected - {peer};
              published := |connected|;
            }
          }
        case DialFailure(failed) =>
          if failed.Some? && failed.value in waiters {
            Resolve(failed.value, false);
            queue := queue + [GenerateEvent(DialFailed(failed.value))];
          }
        case OtherEvent =>
      }
    }

    method PopFront() returns (action: Option<Action>)
      modifies this
      ensures old(queue) == [] ==> action == None && Now() == old(Now())
      ensures old(queue) != [] ==> action == Some(old(queue)[0])
                                   && Now() == old(Now()).(queue := old(queue)[1..], returned := old(returned) + [old(queue)[0]])
    {
      if queue == [] {
        return None;
      }
      action := Some(queue[0]);
      returned := returned + [queue[0]];
      queue := queue[1..];
    }

    method Poll(ready: nat) returns (action: Option<Action>)
      modifies this
      ensures (Now(), action) == AfterPoll(parsers, old(Now()), ready)
    {
      hide AfterAccept;
      action := PopFront();
      if action.Some? {
        return;
      }
      var left: nat := ready;
      while left > 0 && dials != []
        invariant queue == [] && left <= ready && action.None?
        invariant AfterPoll(parsers, Now(), left) == AfterPoll(parsers, old(Now()), ready)
        decreases left
      {
        var request := dials[0];
        dials := dials[1..];
        left := left - 1;
        Accept(request);
        ghost var accepted := Now();
        assert AfterPoll(parsers, accepted, left) == AfterPoll(parsers, old(Now()), ready);
        action := PopFront();
        if action.Some? {
          return;
        }
      }
    }
  }

  // ----- Runs: every interleaving of requests, swarm events and polls -----

  datatype Input =
    | Submit(candidate: Candidate)
    | Establish(up: PeerId)
    | Close(down: PeerId)
    | Fail(failed: Option<PeerId>)
    | Idle
    | PollOnce(ready: nat)

  /** The behaviour, every request ever sent to it, and the connections the swarm holds open. */
  datatype World = World(behaviour: State, sent: seq<DialRequest>, open: multiset<PeerId>)

  const START: World := World(INITIAL, [], multiset{})

  function Next(parsers: Parsers, w: World, input: Input): World {
    match input
    case Submit(peer) =>
      var request := DialRequest(|w.sent|, peer);
      w.(sent := w.sent + [request], behaviour := w.behaviour.(dials := w.behaviour.dials + [request]))
    case Establish(p) => w.(open := w.open + multiset{p}, behaviour := AfterSwarmEvent(w.behaviour, ConnectionEstablished(p)))
    case Close(p) =>
      if p in w.open then
        w.(open := w.open - multiset{p}, behaviour := AfterSwarmEvent(w.behaviour, ConnectionClosed(p, w.open[p] - 1)))
      else w
    case Fail(p) => w.(behaviour := AfterSwarmEvent(w.behaviour, DialFailure(p)))
    case Idle => w.(behaviour := AfterSwarmEvent(w.behaviour, OtherEvent))
    case PollOnce(ready) => w.(behaviour := AfterPoll(parsers, w.behaviour, ready).0)
  }

  function Run(parsers: Parsers, inputs: seq<Input>): World {
    if inputs == [] then START else Next(parsers, Run(parsers, inputs[..|inputs| - 1]), inputs[|inputs| - 1])
  }

  // ----- Connectivity -----

  /** The published count is the number of peers with an open connection, and nobody who
      is connected is still waited for. */
  ghost predicate ConnectivityInv(s: State, open: multiset<PeerId>) {
    && (forall p :: p in s.connected <==> p in open)
    && s.published == |s.connected|
    && (forall p :: p in s.waiters ==> p !in s.connected && s.waiters[p] != [])
  }

  // ----- Requests -----

  function Requests(deliveries: seq<Delivery>): (r: seq<DialRequest>)
    ensures |r| == |deliveries|
  {
    seq(|deliveries|, i requires 0 <= i < |deliveries| => deliveries[i].request)
  }

  function TimesAnswered(s: State, r: DialRequest): nat {
    multiset(Requests(s.deliveries))[r]
  }

  /** How often a request waits under its own peer id. */
  function TimesWaiting(parsers: Parsers, s: State, r: DialRequest): nat {
    match parsers.peerOf(r.peer.peerId)
    case Some(p) => multiset(Waiting(s, p))[r]
    case None => 0
  }

  ghost predicate UnderOwnPeer(parsers: Parsers, s: State) {
    forall p, r :: p in s.waiters && r in s.waiters[p] ==> ForPeer(parsers, r, p)
  }

  predicate ForPeer(parsers: Parsers, r: DialRequest, p: PeerId) {
    r.peer.recordType == RECORD_TYPE_LIBP2P && parsers.peerOf(r.peer.peerId) == Some(p)
  }

  ghost predicate Balanced(parsers: Parsers, s: State, received: multiset<DialRequest>) {
    forall r :: received[r] == TimesAnswered(s, r) + TimesWaiting(parsers, s, r)
  }

  /** An answer is `true` exactly when the request names a libp2p peer that is connected, and the
      published count is then the number of connected peers. */
  ghost predicate Truthful(parsers: Parsers, d: Delivery) {
    && d.published == |d.connected|
    && (d.dialed <==> d.request.peer.recordType == 2 && IsIn(parsers.peerOf(d.request.peer.peerId), d.connected))
  }

  predicate IsIn(peer: Option<PeerId>, connected: set<PeerId>) {
    peer.Some? && peer.value in connected
  }

  ghost predicate TruthInv(parsers: Parsers, s: State) {
    forall d :: d in s.deliveries ==> Truthful(parsers, d)
  }

  /** A reported outcome is true of the peers connected when it is logged. */
  ghost predicate OutcomeTrue(action: Action, connected: set<PeerId>) {
    action.GenerateEvent? ==>
      && (action.event.Connected? ==> action.event.peer in connected)
      && (action.event.DialFailed? ==> action.event.peer !in connected)
  }

  // ----- Causes -----

  predicate NeedsCause(action: Action) {
    action.Dial? || (action.GenerateEvent? && action.event.Rejected?)
  }

  /** `r` is what made the behaviour dial or reject: the addresses dialed are those of its endpoints that
      parse, and the reason given is the first that applies. */
  ghost predicate Causes(parsers: Parsers, r: DialRequest, action: Action) {
    var addresses := Parsed(parsers.addressOf, r.peer.endpoints);
    match action
    case Dial(peer, dialed) =>
      r.peer.recordType == 2 && parsers.peerOf(r.peer.peerId) == Some(peer) && dialed == addresses != []
    case GenerateEvent(Rejected(RejectedRecordType)) => r.peer.recordType != 2
    case GenerateEvent(Rejected(RejectedPeerId)) => r.peer.recordType == 2 && parsers.peerOf(r.peer.peerId).None?
    case GenerateEvent(Rejected(NoDialableEndpoint)) =>
      r.peer.recordType == 2 && parsers.peerOf(r.peer.peerId).Some? && addresses == []
    case _ => true
  }

  ghost predicate Justified(parsers: Parsers, sent: seq<DialRequest>, log: seq<Action>) {
    forall a :: a in log && NeedsCause(a) ==> exists r :: r in sent && Causes(parsers, r, a)
  }

  // ----- Event order -----

  /** Every dial is directly followed by its announcement, and announced only then. */
  ghost predicate Paired(log: seq<Action>) {
    && (forall i :: 0 <= i < |log| && log[i].Dial? ==> i + 1 < |log| && log[i + 1] == GenerateEvent(Dialing(log[i].target)))
    && (forall i :: 0 <= i < |log| && log[i].GenerateEvent? && log[i].event.Dialing? ==>
          0 < i && log[i - 1].Dial? && log[i - 1].target == log[i].event.peer)
  }

  datatype Kind = Dialed | Ended

  function KindOf(action: Action, p: PeerId): Option<Kind> {
    match action
    case GenerateEvent(Dialing(q)) => if p == q then Some(Dialed) else None
    case GenerateEvent(Connected(q)) => if p == q then Some(Ended) else None
    case GenerateEvent(DialFailed(q)) => if p == q then Some(Ended) else None
    case _ => None
  }

  /** What one peer's observer sees of the log. */
  function Projection(log: seq<Action>, p: PeerId): seq<Kind> {
    if log == [] then []
    else
      var rest := Projection(log[..|log| - 1], p);
      match KindOf(log[|log| - 1], p)
      case Some(kind) => rest + [kind]
      case None => rest
  }

  /** The language (Dialed+ Ended)* Dialed*. */
  ghost predicate InLanguage(events: seq<Kind>) {
    forall i :: 0 <= i < |events| && events[i].Ended? ==> i > 0 && events[i - 1].Dialed?
  }

  predicate EndsDialing(events: seq<Kind>) {
    events != [] && events[|events| - 1].Dialed?
  }

  ghost predicate EventInv(s: State) {
    && Paired(s.Log())
    && forall p :: InLanguage(Projection(s.Log(), p)) && (p in s.waiters <==> EndsDialing(Projection(s.Log(), p)))
  }

  // ----- Each step keeps connectivity -----

  lemma AcceptKeepsConnectivity(parsers: Parsers, s: State, request: DialRequest, open: multiset<PeerId>)
    requires ConnectivityInv(s, open)
    ensures ConnectivityInv(AfterAccept(parsers, s, request), open)
  {
  }

  lemma {:induction false} PollKeepsConnectivity(parsers: Parsers, s: State, ready: nat, open: multiset<PeerId>)
    requires ConnectivityInv(s, open)
    ensures ConnectivityInv(AfterPoll(parsers, s, ready).0, open)
    decreases ready
  {
    hide AfterAccept;
    if s.queue == [] && ready > 0 && s.dials != [] {
      var s1 := s.(dials := s.dials[1..]);
      AcceptKeepsConnectivity(parsers, s1, s.dials[0], open);
      PollKeepsConnectivity(parsers, AfterAccept(parsers, s1, s.dials[0]), ready - 1, open);
    }
  }

  lemma EstablishKeepsConnectivity(s: State, p: PeerId, open: multiset<PeerId>)
    requires ConnectivityInv(s, open)
    ensures ConnectivityInv(AfterSwarmEvent(s, ConnectionEstablished(p)), open + multiset{p})
  {
    hide Deliveries;
  }

  lemma CloseKeepsConnectivity(s: State, p: PeerId, open: multiset<PeerId>)
    requires ConnectivityInv(s, open) && p in open
    ensures ConnectivityInv(AfterSwarmEvent(s, ConnectionClosed(p, open[p] - 1)), open - multiset{p})
  {
  }

  lemma FailKeepsConnectivity(s: State, event: SwarmEvent, open: multiset<PeerId>)
    requires ConnectivityInv(s, open) && (event.DialFailure? || event.OtherEvent?)
    ensures ConnectivityInv(AfterSwarmEvent(s, event), open)
  {
    hide Deliveries;
  }

  lemma NextKeepsConnectivity(parsers: Parsers, w: World, input: Input)
    requires ConnectivityInv(w.behaviour, w.open)
    ensures ConnectivityInv(Next(parsers, w, input).behaviour, Next(parsers, w, input).open)
  {
    hide AfterPoll, AfterSwarmEvent;
    match input {
      case Submit(_) =>
      case Establish(p) => EstablishKeepsConnectivity(w.behaviour, p, w.open);
      case Close(p) =>
        if p in w.open {
          CloseKeepsConnectivity(w.behaviour, p, w.open);
        }
      case Fail(p) => FailKeepsConnectivity(w.behaviour, DialFailure(p), w.open);
      case Idle => FailKeepsConnectivity(w.behaviour, OtherEvent, w.open);
      case PollOnce(ready) => PollKeepsConnectivity(parsers, w.behaviour, ready, w.open);
    }
  }

  // ----- Each step keeps requests balanced -----

  /** The requests received so far: all that were sent, less those still in the channel. */
  ghost predicate ChannelInv(w: World) {
    && |w.behaviour.dials| <= |w.sent|
    && w.behaviour.dials == w.sent[|w.sent| - |w.behaviour.dials|..]
    && forall i :: 0 <= i < |w.sent| ==> w.sent[i].id == i
  }

  function Received(w: World): seq<DialRequest>
    requires |w.behaviour.dials| <= |w.sent|
  {
    w.sent[..|w.sent| - |w.behaviour.dials|]
  }

  lemma AnswerCounts(s: State, requests: seq<DialRequest>, dialed: bool, r: DialRequest)
    ensures TimesAnswered(s.Answer(requests, dialed), r) == TimesAnswered(s, r) + multiset(requests)[r]
  {
    assert Requests(s.Answer(requests, dialed).deliveries) == Requests(s.deliveries) + requests;
  }

  lemma ResolveKeepsBalance(parsers: Parsers, s: State, peer: PeerId, dialed: bool, received: multiset<DialRequest>)
    requires UnderOwnPeer(parsers, s) && Balanced(parsers, s, received)
    ensures UnderOwnPeer(parsers, AfterResolve(s, peer, dialed)) && Balanced(parsers, AfterResolve(s, peer, dialed), received)
  {
    hide Deliveries;
    if peer in s.waiters {
      var s1 := s.(waiters := s.waiters - {peer});
      forall r
        ensures received[r] == TimesAnswered(AfterResolve(s, peer, dialed), r) + TimesWaiting(parsers, AfterResolve(s, peer, dialed), r)
      {
        AnswerCounts(s1, s.waiters[peer], dialed, r);
        assert received[r] == TimesAnswered(s, r) + TimesWaiting(parsers, s, r);
        if parsers.peerOf(r.peer.peerId) != Some(peer) {
          assert r !in s.waiters[peer];
        }
      }
    }
  }

  /** The three ways to accept a request. */
  datatype Acceptance = AnsweredAtOnce | RefusedFor(reason: Rejection) | MustDial(peer: PeerId, addresses: seq<Multiaddr>)

  lemma AcceptOutcome(parsers: Parsers, s: State, request: DialRequest) returns (outcome: Acceptance)
    ensures var after := AfterAccept(parsers, s, request);
      match outcome
      case AnsweredAtOnce =>
        request.peer.recordType == 2 && IsIn(parsers.peerOf(request.peer.peerId), s.connected) && after == s.Answer([request], true)
      case RefusedFor(reason) =>
        && Causes(parsers, request, GenerateEvent(Rejected(reason)))
        && !(request.peer.recordType == 2 && IsIn(parsers.peerOf(request.peer.peerId), s.connected))
        && after == AfterReject(s, request, reason)
      case MustDial(peer, addresses) =>
        && ForPeer(parsers, request, peer) && peer !in s.connected
        && Causes(parsers, request, Dial(peer, addresses))
        && after == s.(waiters := s.waiters[peer := Waiting(s, peer) + [request]])
                    .Enqueue([Dial(peer, addresses), GenerateEvent(Dialing(peer))])
  {
    hide Deliveries, Parsed;
    if request.peer.recordType != RECORD_TYPE_LIBP2P {
      return RefusedFor(RejectedRecordType);
    }
    if parsers.peerOf(request.peer.peerId).None? {
      return RefusedFor(RejectedPeerId);
    }
    var peer := parsers.peerOf(request.peer.peerId).value;
    if peer in s.connected {
      return AnsweredAtOnce;
    }
    var addresses := Parsed(parsers.addressOf, request.peer.endpoints);
    outcome := if addresses == [] then RefusedFor(NoDialableEndpoint) else MustDial(peer, addresses);
  }

  lemma AcceptKeepsBalance(parsers: Parsers, s: State, request: DialRequest, received: multiset<DialRequest>)
    requires UnderOwnPeer(parsers, s) && Balanced(parsers, s, received)
    ensures UnderOwnPeer(parsers, AfterAccept(parsers, s, request))
    ensures Balanced(parsers, AfterAccept(parsers, s, request), received + multiset{request})
  {
    hide Deliveries, AfterAccept, Requests;
    var after := AfterAccept(parsers, s, request);
    var outcome := AcceptOutcome(parsers, s, request);
    forall r
      ensures (received + multiset{request})[r] == TimesAnswered(after, r) + TimesWaiting(parsers, after, r)
    {
      assert received[r] == TimesAnswered(s, r) + TimesWaiting(parsers, s, r);
      AnswerCounts(s, [request], true, r);
      AnswerCounts(s, [request], false, r);
    }
  }

  /** Taking one request off the channel and accepting it. */
  function Admit(parsers: Parsers, w: World): World
    requires w.behaviour.dials != []
  {
    w.(behaviour := AfterAccept(parsers, w.behaviour.(dials := w.behaviour.dials[1..]), w.behaviour.dials[0]))
  }

  lemma AcceptLeavesChannel(parsers: Parsers, s: State, request: DialRequest)
    ensures AfterAccept(parsers, s, request).dials == s.dials && AfterAccept(parsers, s, request).returned == s.returned
  {
  }

  ghost predicate RequestInv(parsers: Parsers, w: World) {
    && ChannelInv(w)
    && UnderOwnPeer(parsers, w.behaviour)
    && Balanced(parsers, w.behaviour, multiset(Received(w)))
  }

  lemma AdmitKeepsRequests(parsers: Parsers, w: World)
    requires RequestInv(parsers, w) && w.behaviour.dials != []
    ensures RequestInv(parsers, Admit(parsers, w))
  {
    hide AfterAccept, UnderOwnPeer, Balanced;
    var s := w.behaviour;
    var s1 := s.(dials := s.dials[1..]);
    SameBalance(parsers, s, s1, multiset(Received(w)));
    AcceptKeepsBalance(parsers, s1, s.dials[0], multiset(Received(w)));
    AcceptLeavesChannel(parsers, s1, s.dials[0]);
    assert Received(Admit(parsers, w)) == Received(w) + [s.dials[0]];
  }

  lemma {:induction false} PollKeepsRequests(parsers: Parsers, w: World, ready: nat)
    requires RequestInv(parsers, w)
    ensures RequestInv(parsers, w.(behaviour := AfterPoll(parsers, w.behaviour, ready).0))
    decreases ready
  {
    hide AfterAccept, UnderOwnPeer, Balanced;
    var s := w.behaviour;
    if s.queue != [] {
      SameBalance(parsers, s, AfterPoll(parsers, s, ready).0, multiset(Received(w)));
    } else if ready > 0 && s.dials != [] {
      AdmitKeepsRequests(parsers, w);
      PollKeepsRequests(parsers, Admit(parsers, w), ready - 1);
    }
  }

  lemma SwarmEventKeepsRequests(parsers: Parsers, w: World, event: SwarmEvent)
    requires RequestInv(parsers, w)
    ensures RequestInv(parsers, w.(behaviour := AfterSwarmEvent(w.behaviour, event)))
  {
    hide UnderOwnPeer, Balanced, Deliveries;
    var s, received := w.behaviour, multiset(Received(w));
    var after := AfterSwarmEvent(s, event);
    assert after.dials == s.dials;
    match event {
      case ConnectionEstablished(peer) =>
        var s1 := if peer in s.connected then s else s.(connected := s.connected + {peer}, published := |s.connected + {peer}|);
        SameBalance(parsers, s, s1, received);
        ResolveKeepsBalance(parsers, s1, peer, true, received);
        SameBalance(parsers, AfterResolve(s1, peer, true), after, received);
      case ConnectionClosed(_, _) =>
        SameBalance(parsers, s, after, received);
      case DialFailure(failed) =>
        if failed.Some? && failed.value in s.waiters {
          ResolveKeepsBalance(parsers, s, failed.value, false, received);
          SameBalance(parsers, AfterResolve(s, failed.value, false), after, received);
        }
      case OtherEvent =>
    }
  }

  lemma NextKeepsRequests(parsers: Parsers, w: World, input: Input)
    requires RequestInv(parsers, w)
    ensures RequestInv(parsers, Next(parsers, w, input))
  {
    hide AfterSwarmEvent, AfterPoll, UnderOwnPeer, Balanced, RequestInv;
    match input {
      case Submit(_) => SubmitKeepsRequests(parsers, w, input);
      case Establish(p) =>
        SwarmEventKeepsRequests(parsers, w, ConnectionEstablished(p));
        OpenIsIrrelevant(parsers, w, Next(parsers, w, input), ConnectionEstablished(p));
      case Close(p) =>
        if p in w.open {
          SwarmEventKeepsRequests(parsers, w, ConnectionClosed(p, w.open[p] - 1));
          OpenIsIrrelevant(parsers, w, Next(parsers, w, input), ConnectionClosed(p, w.open[p] - 1));
        }
      case Fail(p) => SwarmEventKeepsRequests(parsers, w, DialFailure(p));
      case Idle => SwarmEventKeepsRequests(parsers, w, OtherEvent);
      case PollOnce(ready) => PollKeepsRequests(parsers, w, ready);
    }
  }

  lemma OpenIsIrrelevant(parsers: Parsers, w: World, next: World, event: SwarmEvent)
    requires RequestInv(parsers, w.(behaviour := AfterSwarmEvent(w.behaviour, event)))
    requires next.behaviour == AfterSwarmEvent(w.behaviour, event) && next.sent == w.sent
    ensures RequestInv(parsers, next)
  {
    hide AfterSwarmEvent, UnderOwnPeer, Balanced;
  }

  lemma SubmitKeepsRequests(parsers: Parsers, w: World, input: Input)
    requires RequestInv(parsers, w) && input.Submit?
    ensures RequestInv(parsers, Next(parsers, w, input))
  {
    hide UnderOwnPeer, Balanced;
    var after := Next(parsers, w, input);
    SameBalance(parsers, w.behaviour, after.behaviour, multiset(Received(w)));
    assert Received(after) == Received(w);
  }

  lemma SameBalance(parsers: Parsers, s: State, t: State, received: multiset<DialRequest>)
    requires UnderOwnPeer(parsers, s) && Balanced(parsers, s, received)
    requires t.waiters == s.waiters && t.deliveries == s.deliveries
    ensures UnderOwnPeer(parsers, t) && Balanced(parsers, t, received)
  {
    forall r
      ensures received[r] == TimesAnswered(t, r) + TimesWaiting(parsers, t, r)
    {
      assert received[r] == TimesAnswered(s, r) + TimesWaiting(parsers, s, r);
    }
  }

  // ----- Answers tell the truth -----

  lemma AnswersStayTrue(parsers: Parsers, s: State, requests: seq<DialRequest>, dialed: bool)
    requires TruthInv(parsers, s) && s.published == |s.connected|
    requires forall r :: r in requests ==> (dialed <==> r.peer.recordType == 2 && IsIn(parsers.peerOf(r.peer.peerId), s.connected))
    ensures TruthInv(parsers, s.Answer(requests, dialed))
  {
    var added := Deliveries(requests, dialed, s.published, s.connected);
    forall d | d in added
      ensures Truthful(parsers, d)
    {
      var i :| 0 <= i < |added| && added[i] == d;
      assert requests[i] in requests;
    }
  }

  lemma AcceptKeepsTruth(parsers: Parsers, s: State, request: DialRequest)
    requires TruthInv(parsers, s) && s.published == |s.connected|
    ensures TruthInv(parsers, AfterAccept(parsers, s, request))
  {
    hide Deliveries, AfterAccept, Truthful, Causes;
    var outcome := AcceptOutcome(parsers, s, request);
    match outcome {
      case AnsweredAtOnce => AnswersStayTrue(parsers, s, [request], true);
      case RefusedFor(_) => AnswersStayTrue(parsers, s, [request], false);
      case MustDial(_, _) =>
    }
  }

  lemma {:induction false} PollKeepsTruth(parsers: Parsers, s: State, ready: nat, open: multiset<PeerId>)
    requires TruthInv(parsers, s) && ConnectivityInv(s, open)
    ensures TruthInv(parsers, AfterPoll(parsers, s, ready).0)
    decreases ready
  {
    hide AfterAccept, Truthful;
    if s.queue == [] && ready > 0 && s.dials != [] {
      var s1 := s.(dials := s.dials[1..]);
      AcceptKeepsConnectivity(parsers, s1, s.dials[0], open);
      AcceptKeepsTruth(parsers, s1, s.dials[0]);
      PollKeepsTruth(parsers, AfterAccept(parsers, s1, s.dials[0]), ready - 1, open);
    }
  }

  lemma SwarmEventKeepsTruth(parsers: Parsers, s: State, event: SwarmEvent, open: multiset<PeerId>)
    requires TruthInv(parsers, s) && UnderOwnPeer(parsers, s) && ConnectivityInv(s, open)
    ensures TruthInv(parsers, AfterSwarmEvent(s, event))
  {
    hide Deliveries, Truthful;
    match event {
      case ConnectionEstablished(peer) =>
        if peer in s.waiters {
          var s1 := s.(connected := s.connected + {peer}, published := |s.connected + {peer}|, waiters := s.waiters - {peer});
          WaitersAreForPeer(parsers, s, peer, s1.connected);
          AnswersStayTrue(parsers, s1, s.waiters[peer], true);
        }
      case DialFailure(failed) =>
        if failed.Some? && failed.value in s.waiters {
          WaitersAreForPeer(parsers, s, failed.value, s.connected);
          AnswersStayTrue(parsers, s.(waiters := s.waiters - {failed.value}), s.waiters[failed.value], false);
        }
      case _ =>
    }
  }

  lemma WaitersAreForPeer(parsers: Parsers, s: State, peer: PeerId, connected: set<PeerId>)
    requires UnderOwnPeer(parsers, s) && peer in s.waiters
    ensures forall r :: r in s.waiters[peer] ==>
              (peer in connected <==> r.peer.recordType == 2 && IsIn(parsers.peerOf(r.peer.peerId), connected))
  {
    forall r | r in s.waiters[peer]
      ensures peer in connected <==> r.peer.recordType == 2 && IsIn(parsers.peerOf(r.peer.peerId), connected)
    {
      assert ForPeer(parsers, r, peer);
    }
  }

  lemma NextKeepsTruth(parsers: Parsers, w: World, input: Input)
    requires TruthInv(parsers, w.behaviour) && UnderOwnPeer(parsers, w.behaviour) && ConnectivityInv(w.behaviour, w.open)
    ensures TruthInv(parsers, Next(parsers, w, input).behaviour)
  {
    hide AfterSwarmEvent, AfterPoll, UnderOwnPeer;
    match input {
      case Submit(_) =>
      case Establish(p) => SwarmEventKeepsTruth(parsers, w.behaviour, ConnectionEstablished(p), w.open);
      case Close(p) =>
        if p in w.open {
          SwarmEventKeepsTruth(parsers, w.behaviour, ConnectionClosed(p, w.open[p] - 1), w.open);
        }
      case Fail(p) => SwarmEventKeepsTruth(parsers, w.behaviour, DialFailure(p), w.open);
      case Idle =>
        SwarmEventKeepsTruth(parsers, w.behaviour, OtherEvent, w.open);
      case PollOnce(ready) => PollKeepsTruth(parsers, w.behaviour, ready, w.open);
    }
  }

  // ----- Event order -----

  lemma ProjectionAppend(log: seq<Action>, action: Action, p: PeerId)
    ensures Projection(log + [action], p) ==
            Projection(log, p) + (match KindOf(action, p) case Some(kind) => [kind] case None => [])
  {
    assert (log + [action])[..|log + [action]| - 1] == log;
  }

  /** The log gains a rejection, which no peer's observer sees. */
  lemma LogRejection(s: State, t: State, reason: Rejection)
    requires EventInv(s) && t.Log() == s.Log() + [GenerateEvent(Rejected(reason))] && t.waiters == s.waiters
    ensures EventInv(t)
  {
    forall p
      ensures Projection(t.Log(), p) == Projection(s.Log(), p)
    {
      ProjectionAppend(s.Log(), GenerateEvent(Rejected(reason)), p);
    }
  }

  lemma LogDial(s: State, t: State, peer: PeerId, addresses: seq<Multiaddr>)
    requires EventInv(s) && t.Log() == s.Log() + [Dial(peer, addresses), GenerateEvent(Dialing(peer))]
    requires t.waiters.Keys == s.waiters.Keys + {peer}
    ensures EventInv(t)
  {
    hide InLanguage, EndsDialing, Paired;
    var dial, event := Dial(peer, addresses), GenerateEvent(Dialing(peer));
    assert t.Log() == (s.Log() + [dial]) + [event];
    PairedDial(s.Log(), peer, addresses);
    forall p
      ensures InLanguage(Projection(t.Log(), p)) && (p in t.waiters <==> EndsDialing(Projection(t.Log(), p)))
    {
      ProjectionAppend(s.Log(), dial, p);
      ProjectionAppend(s.Log() + [dial], event, p);
      WordDialed(Projection(s.Log(), p));
    }
  }

  lemma PairedDial(log: seq<Action>, peer: PeerId, addresses: seq<Multiaddr>)
    requires Paired(log)
    ensures Paired(log + [Dial(peer, addresses), GenerateEvent(Dialing(peer))])
  {
  }

  lemma WordDialed(events: seq<Kind>)
    requires InLanguage(events)
    ensures InLanguage(events + [Dialed]) && EndsDialing(events + [Dialed])
  {
  }

  lemma LogOutcome(s: State, t: State, peer: PeerId, event: Event)
    requires EventInv(s) && peer in s.waiters && t.Log() == s.Log() + [GenerateEvent(event)]
    requires event == Connected(peer) || event == DialFailed(peer)
    requires t.waiters.Keys == s.waiters.Keys - {peer}
    ensures EventInv(t)
  {
    forall p
      ensures Projection(t.Log(), p) == Projection(s.Log(), p) + if p == peer then [Ended] else []
    {
      ProjectionAppend(s.Log(), GenerateEvent(event), p);
    }
    forall p
      ensures InLanguage(Projection(t.Log(), p)) && (p in t.waiters <==> EndsDialing(Projection(t.Log(), p)))
    {
      assert InLanguage(Projection(s.Log(), p)) && (p in s.waiters <==> EndsDialing(Projection(s.Log(), p)));
    }
  }

  lemma SameLog(s: State, t: State)
    requires EventInv(s) && t.Log() == s.Log() && t.waiters == s.waiters
    ensures EventInv(t)
  {
  }

  lemma AcceptKeepsEvents(parsers: Parsers, s: State, request: DialRequest)
    requires EventInv(s)
    ensures EventInv(AfterAccept(parsers, s, request)) && s.Log() <= AfterAccept(parsers, s, request).Log()
  {
    hide EventInv, AfterAccept, Deliveries;
    var after := AfterAccept(parsers, s, request);
    var outcome := AcceptOutcome(parsers, s, request);
    match outcome {
      case AnsweredAtOnce =>
        SameLog(s, after);
      case RefusedFor(reason) =>
        assert after.Log() == s.Log() + [GenerateEvent(Rejected(reason))];
        LogRejection(s, after, reason);
      case MustDial(peer, addresses) =>
        assert after.Log() == s.Log() + [Dial(peer, addresses), GenerateEvent(Dialing(peer))];
        LogDial(s, after, peer, addresses);
    }
  }

  lemma {:induction false} PollKeepsEvents(parsers: Parsers, s: State, ready: nat)
    requires EventInv(s)
    ensures EventInv(AfterPoll(parsers, s, ready).0) && s.Log() <= AfterPoll(parsers, s, ready).0.Log()
    decreases ready
  {
    hide AfterAccept, EventInv;
    if s.queue != [] {
      SameLog(s, AfterPoll(parsers, s, ready).0);
    } else if ready > 0 && s.dials != [] {
      var s1 := s.(dials := s.dials[1..]);
      SameLog(s, s1);
      AcceptKeepsEvents(parsers, s1, s.dials[0]);
      PollKeepsEvents(parsers, AfterAccept(parsers, s1, s.dials[0]), ready - 1);
    }
  }

  lemma SwarmEventKeepsEvents(s: State, event: SwarmEvent)
    requires EventInv(s)
    ensures EventInv(AfterSwarmEvent(s, event)) && s.Log() <= AfterSwarmEvent(s, event).Log()
  {
    hide EventInv, Deliveries;
    var after := AfterSwarmEvent(s, event);
    match event {
      case ConnectionEstablished(peer) =>
        if peer in s.waiters {
          assert after.Log() == s.Log() + [GenerateEvent(Connected(peer))];
          LogOutcome(s, after, peer, Connected(peer));
        } else {
          SameLog(s, after);
        }
      case DialFailure(failed) =>
        if failed.Some? && failed.value in s.waiters {
          assert after.Log() == s.Log() + [GenerateEvent(DialFailed(failed.value))];
          LogOutcome(s, after, failed.value, DialFailed(failed.value));
        } else {
          SameLog(s, after);
        }
      case _ => SameLog(s, after);
    }
  }

  lemma NextKeepsEvents(parsers: Parsers, w: World, input: Input)
    requires EventInv(w.behaviour)
    ensures EventInv(Next(parsers, w, input).behaviour) && w.behaviour.Log() <= Next(parsers, w, input).behaviour.Log()
  {
    hide AfterSwarmEvent, AfterPoll, EventInv;
    match input {
      case Submit(_) => SameLog(w.behaviour, Next(parsers, w, input).behaviour);
      case Establish(p) => SwarmEventKeepsEvents(w.behaviour, ConnectionEstablished(p));
      case Close(p) =>
        if p in w.open {
          SwarmEventKeepsEvents(w.behaviour, ConnectionClosed(p, w.open[p] - 1));
        }
      case Fail(p) => SwarmEventKeepsEvents(w.behaviour, DialFailure(p));
      case Idle => SwarmEventKeepsEvents(w.behaviour, OtherEvent);
      case PollOnce(ready) => PollKeepsEvents(parsers, w.behaviour, ready);
    }
  }

  // ----- Outcomes are true when logged -----

  /** Accepting a request reports no outcome, and connects nobody. */
  lemma AcceptReportsNothing(parsers: Parsers, s: State, request: DialRequest)
    ensures var after := AfterAccept(parsers, s, request);
      && after.connected == s.connected && s.Log() <= after.Log()
      && forall k :: |s.Log()| <= k < |after.Log()| ==> OutcomeTrue(after.Log()[k], after.connected)
  {
    hide AfterAccept, Deliveries, Causes;
    var outcome := AcceptOutcome(parsers, s, request);
    var after := AfterAccept(parsers, s, request);
    match outcome {
      case AnsweredAtOnce =>
      case RefusedFor(reason) => assert after.Log() == s.Log() + [GenerateEvent(Rejected(reason))];
      case MustDial(peer, addresses) => assert after.Log() == s.Log() + [Dial(peer, addresses), GenerateEvent(Dialing(peer))];
    }
  }

  lemma {:induction false} PollReportsNothing(parsers: Parsers, s: State, ready: nat)
    ensures var after := AfterPoll(parsers, s, ready).0;
      && after.connected == s.connected && s.Log() <= after.Log()
      && forall k :: |s.Log()| <= k < |after.Log()| ==> OutcomeTrue(after.Log()[k], after.connected)
    decreases ready
  {
    hide AfterAccept, OutcomeTrue;
    if s.queue == [] && ready > 0 && s.dials != [] {
      var s1 := s.(dials := s.dials[1..]);
      AcceptReportsNothing(parsers, s1, s.dials[0]);
      PollReportsNothing(parsers, AfterAccept(parsers, s1, s.dials[0]), ready - 1);
    }
  }

  lemma SwarmEventReportsTruth(s: State, event: SwarmEvent, open: multiset<PeerId>)
    requires ConnectivityInv(s, open)
    ensures var after := AfterSwarmEvent(s, event);
      forall k :: |s.Log()| <= k < |after.Log()| ==> OutcomeTrue(after.Log()[k], after.connected)
  {
    hide Deliveries;
    var after := AfterSwarmEvent(s, event);
    match event {
      case ConnectionEstablished(peer) => assert peer in s.waiters ==> after.Log() == s.Log() + [GenerateEvent(Connected(peer))];
      case DialFailure(failed) =>
        if failed.Some? && failed.value in s.waiters {
          assert after.Log() == s.Log() + [GenerateEvent(DialFailed(failed.value))];
        }
      case _ =>
    }
  }

  /** Whatever one step logs is true of the peers connected after it. */
  lemma NextReportsTruth(parsers: Parsers, w: World, input: Input)
    requires ConnectivityInv(w.behaviour, w.open)
    ensures var after := Next(parsers, w, input).behaviour;
      forall k :: |w.behaviour.Log()| <= k < |after.Log()| ==> OutcomeTrue(after.Log()[k], after.connected)
  {
    hide AfterSwarmEvent, AfterPoll, OutcomeTrue, ConnectivityInv;
    match input {
      case Submit(_) =>
      case Establish(p) => SwarmEventReportsTruth(w.behaviour, ConnectionEstablished(p), w.open);
      case Close(p) =>
        if p in w.open {
          SwarmEventReportsTruth(w.behaviour, ConnectionClosed(p, w.open[p] - 1), w.open);
        }
      case Fail(p) => SwarmEventReportsTruth(w.behaviour, DialFailure(p), w.open);
      case Idle => SwarmEventReportsTruth(w.behaviour, OtherEvent, w.open);
      case PollOnce(ready) => PollReportsNothing(parsers, w.behaviour, ready);
    }
  }

  /** Over every run: each action logged while handling an input is true of the peers connected then. */
  ghost predicate OutcomesTrue(parsers: Parsers, inputs: seq<Input>) {
    forall n :: 0 <= n < |inputs| ==> StepOutcomesTrue(Run(parsers, inputs[..n]).behaviour, Run(parsers, inputs[..n + 1]).behaviour)
  }

  ghost predicate StepOutcomesTrue(before: State, after: State) {
    before.Log() <= after.Log()
    && forall k :: |before.Log()| <= k < |after.Log()| ==> OutcomeTrue(after.Log()[k], after.connected)
  }

  // ----- Every dial and every rejection has its request -----

  lemma JustifiedMore(parsers: Parsers, sent: seq<DialRequest>, r: DialRequest, log: seq<Action>, a: Action)
    requires Justified(parsers, sent, log) && r in sent && (NeedsCause(a) ==> Causes(parsers, r, a))
    ensures Justified(parsers, sent, log + [a])
  {
    hide Causes;
  }

  lemma AcceptIsJustified(parsers: Parsers, sent: seq<DialRequest>, s: State, request: DialRequest)
    requires Justified(parsers, sent, s.Log()) && request in sent
    ensures Justified(parsers, sent, AfterAccept(parsers, s, request).Log())
  {
    hide AfterAccept, Deliveries, Causes, Justified;
    var outcome := AcceptOutcome(parsers, s, request);
    var after := AfterAccept(parsers, s, request);
    match outcome {
      case AnsweredAtOnce =>
      case RefusedFor(reason) =>
        JustifiedMore(parsers, sent, request, s.Log(), GenerateEvent(Rejected(reason)));
        assert after.Log() == s.Log() + [GenerateEvent(Rejected(reason))];
      case MustDial(peer, addresses) =>
        JustifiedMore(parsers, sent, request, s.Log(), Dial(peer, addresses));
        JustifiedMore(parsers, sent, request, s.Log() + [Dial(peer, addresses)], GenerateEvent(Dialing(peer)));
        assert after.Log() == s.Log() + [Dial(peer, addresses)] + [GenerateEvent(Dialing(peer))];
    }
  }

  lemma {:induction false} PollIsJustified(parsers: Parsers, sent: seq<DialRequest>, s: State, ready: nat)
    requires Justified(parsers, sent, s.Log()) && forall r :: r in s.dials ==> r in sent
    ensures Justified(parsers, sent, AfterPoll(parsers, s, ready).0.Log())
    decreases ready
  {
    hide AfterAccept, Justified;
    if s.queue != [] {
      assert AfterPoll(parsers, s, ready).0.Log() == s.Log();
    } else if ready > 0 && s.dials != [] {
      var s1 := s.(dials := s.dials[1..]);
      AcceptIsJustified(parsers, sent, s1, s.dials[0]);
      AcceptLeavesChannel(parsers, s1, s.dials[0]);
      PollIsJustified(parsers, sent, AfterAccept(parsers, s1, s.dials[0]), ready - 1);
    }
  }

  lemma SwarmEventIsJustified(parsers: Parsers, sent: seq<DialRequest>, s: State, event: SwarmEvent)
    requires Justified(parsers, sent, s.Log())
    ensures Justified(parsers, sent, AfterSwarmEvent(s, event).Log())
  {
    hide Deliveries, Causes;
    var after := AfterSwarmEvent(s, event);
    match event {
      case ConnectionEstablished(peer) => assert peer in s.waiters ==> after.Log() == s.Log() + [GenerateEvent(Connected(peer))];
      case DialFailure(failed) =>
        if failed.Some? && failed.value in s.waiters {
          assert after.Log() == s.Log() + [GenerateEvent(DialFailed(failed.value))];
        }
      case _ =>
    }
  }

  lemma NextIsJustified(parsers: Parsers, w: World, input: Input)
    requires ChannelInv(w) && Justified(parsers, w.sent, w.behaviour.Log())
    ensures Justified(parsers, Next(parsers, w, input).sent, Next(parsers, w, input).behaviour.Log())
  {
    hide AfterSwarmEvent, AfterPoll, Justified;
    match input {
      case Submit(_) => SentMore(parsers, w.sent, Next(parsers, w, input).sent, w.behaviour.Log());
      case Establish(p) => SwarmEventIsJustified(parsers, w.sent, w.behaviour, ConnectionEstablished(p));
      case Close(p) =>
        if p in w.open {
          SwarmEventIsJustified(parsers, w.sent, w.behaviour, ConnectionClosed(p, w.open[p] - 1));
        }
      case Fail(p) => SwarmEventIsJustified(parsers, w.sent, w.behaviour, DialFailure(p));
      case Idle => SwarmEventIsJustified(parsers, w.sent, w.behaviour, OtherEvent);
      case PollOnce(ready) => PollIsJustified(parsers, w.sent, w.behaviour, ready);
    }
  }

  lemma SentMore(parsers: Parsers, sent: seq<DialRequest>, more: seq<DialRequest>, log: seq<Action>)
    requires Justified(parsers, sent, log) && sent <= more
    ensures Justified(parsers, more, log)
  {
    hide Causes;
    assert forall r :: r in sent ==> r in more;
  }

  // ----- Main results -----

  ghost predicate Safe(parsers: Parsers, w: World) {
    && ConnectivityInv(w.behaviour, w.open)
    && RequestInv(parsers, w)
    && TruthInv(parsers, w.behaviour)
    && EventInv(w.behaviour)
    && Justified(parsers, w.sent, w.behaviour.Log())
  }

  // ----- Who waits -----

  predicate Settles(input: Input, p: PeerId) {
    input == Establish(p) || input == Fail(Some(p))
  }

  lemma {:induction false} PollKeepsWaiting(parsers: Parsers, s: State, ready: nat, p: PeerId)
    ensures Waiting(s, p) <= Waiting(AfterPoll(parsers, s, ready).0, p)
    decreases ready
  {
    hide AfterAccept;
    if s.queue == [] && ready > 0 && s.dials != [] {
      var s1 := s.(dials := s.dials[1..]);
      AcceptKeepsWaiting(parsers, s1, s.dials[0], p);
      PollKeepsWaiting(parsers, AfterAccept(parsers, s1, s.dials[0]), ready - 1, p);
    }
  }

  lemma AcceptKeepsWaiting(parsers: Parsers, s: State, request: DialRequest, p: PeerId)
    ensures Waiting(s, p) <= Waiting(AfterAccept(parsers, s, request), p)
  {
    hide Deliveries, Parsed;
  }

  /** A connection with the peer and a failed dial of it end every wait for it, a poll may add one, and
      nothing else touches the waiting requests. */
  lemma NextSettlesWaiting(parsers: Parsers, w: World, input: Input, p: PeerId)
    ensures var before, after := Waiting(w.behaviour, p), Waiting(Next(parsers, w, input).behaviour, p);
      if Settles(input, p) then p !in Next(parsers, w, input).behaviour.waiters
      else if input.PollOnce? then before <= after
      else before == after && (p in w.behaviour.waiters <==> p in Next(parsers, w, input).behaviour.waiters)
  {
    hide AfterPoll, AfterSwarmEvent;
    match input {
      case Submit(_) =>
      case Establish(up) => EventSettlesWaiting(w.behaviour, ConnectionEstablished(up), p);
      case Close(down) =>
        if down in w.open {
          EventSettlesWaiting(w.behaviour, ConnectionClosed(down, w.open[down] - 1), p);
        }
      case Fail(failed) => EventSettlesWaiting(w.behaviour, DialFailure(failed), p);
      case Idle => EventSettlesWaiting(w.behaviour, OtherEvent, p);
      case PollOnce(ready) => PollKeepsWaiting(parsers, w.behaviour, ready, p);
    }
  }

  lemma EventSettlesWaiting(s: State, event: SwarmEvent, p: PeerId)
    ensures p in AfterSwarmEvent(s, event).waiters <==> p in s.waiters && event != ConnectionEstablished(p) && event != DialFailure(Some(p))
    ensures p in AfterSwarmEvent(s, event).waiters ==> AfterSwarmEvent(s, event).waiters[p] == s.waiters[p]
  {
    hide Deliveries;
  }

  /** Whoever waits was admitted by a poll after which its peer neither connected nor failed. */
  lemma {:induction false} WaitingIsUnsettled(parsers: Parsers, inputs: seq<Input>, p: PeerId) returns (admitted: nat)
    requires p in Run(parsers, inputs).behaviour.waiters
    ensures admitted < |inputs| && inputs[admitted].PollOnce?
    ensures Establish(p) !in inputs[admitted + 1..] && Fail(Some(p)) !in inputs[admitted + 1..]
  {
    hide Next;
    var n := |inputs| - 1;
    NextSettlesWaiting(parsers, Run(parsers, inputs[..n]), inputs[n], p);
    if inputs[n].PollOnce? {
      admitted := n;
    } else {
      admitted := WaitingIsUnsettled(parsers, inputs[..n], p);
      assert inputs[admitted + 1..] == inputs[..n][admitted + 1..] + [inputs[n]];
    }
  }

  /** Over every interleaving of requests, swarm events and polls. */
  lemma {:induction false} EveryRunIsSafe(parsers: Parsers, inputs: seq<Input>)
    ensures Safe(parsers, Run(parsers, inputs)) && OutcomesTrue(parsers, inputs)
  {
    hide ConnectivityInv, TruthInv, EventInv, RequestInv, Justified, StepOutcomesTrue, Next;
    if inputs == [] {
      StartIsSafe(parsers);
    } else {
      var n := |inputs| - 1;
      EveryRunIsSafe(parsers, inputs[..n]);
      var w := Run(parsers, inputs[..n]);
      NextKeepsConnectivity(parsers, w, inputs[n]);
      NextKeepsRequests(parsers, w, inputs[n]);
      OwnPeers(parsers, w);
      NextKeepsTruth(parsers, w, inputs[n]);
      NextKeepsEvents(parsers, w, inputs[n]);
      InChannel(parsers, w);
      NextIsJustified(parsers, w, inputs[n]);
      NextReportsTruth(parsers, w, inputs[n]);
      StepIsTrue(w.behaviour, Next(parsers, w, inputs[n]).behaviour);
      forall m | 0 <= m < |inputs|
        ensures StepOutcomesTrue(Run(parsers, inputs[..m]).behaviour, Run(parsers, inputs[..m + 1]).behaviour)
      {
        if m < n {
          assert inputs[..n][..m] == inputs[..m] && inputs[..n][..m + 1] == inputs[..m + 1];
        } else {
          assert inputs[..m + 1] == inputs;
        }
      }
    }
  }

  lemma StepIsTrue(before: State, after: State)
    requires before.Log() <= after.Log()
    requires forall k :: |before.Log()| <= k < |after.Log()| ==> OutcomeTrue(after.Log()[k], after.connected)
    ensures StepOutcomesTrue(before, after)
  {
  }

  lemma InChannel(parsers: Parsers, w: World)
    requires RequestInv(parsers, w)
    ensures ChannelInv(w)
  {
    hide ChannelInv;
  }

  lemma OwnPeers(parsers: Parsers, w: World)
    requires RequestInv(parsers, w)
    ensures UnderOwnPeer(parsers, w.behaviour)
  {
  }

  lemma StartIsSafe(parsers: Parsers)
    ensures Safe(parsers, START)
  {
    StartConnectivity();
    StartRequests(parsers);
    StartEvents(parsers);
    hide ConnectivityInv, RequestInv, EventInv, Justified, Truthful;
  }

  lemma StartConnectivity()
    ensures ConnectivityInv(INITIAL, multiset{})
  {
  }

  lemma StartRequests(parsers: Parsers)
    ensures RequestInv(parsers, START)
  {
    assert Received(START) == [] && Requests([]) == [];
  }

  lemma StartEvents(parsers: Parsers)
    ensures EventInv(INITIAL) && Justified(parsers, [], INITIAL.Log())
  {
    assert INITIAL.Log() == [];
  }

  /** Every received request is answered exactly once, or waits exactly once under its own peer
      and has not been answered; a request still in the channel is neither. */
  lemma AnsweredOnceOrWaiting(parsers: Parsers, inputs: seq<Input>, i: nat)
    requires i < |Run(parsers, inputs).sent|
    ensures var w := Run(parsers, inputs);
      var r := w.sent[i];
      TimesAnswered(w.behaviour, r) + TimesWaiting(parsers, w.behaviour, r)
      == if i < |w.sent| - |w.behaviour.dials| then 1 else 0
  {
    EveryRunIsSafe(parsers, inputs);
    var w := Run(parsers, inputs);
    hide Run, ConnectivityInv, TruthInv, EventInv, TimesAnswered, TimesWaiting;
    CountOfDistinct(w.sent, |w.sent| - |w.behaviour.dials|, i);
  }

  lemma {:induction false} CountOfDistinct(sent: seq<DialRequest>, n: nat, i: nat)
    requires n <= |sent| && i < |sent| && forall k :: 0 <= k < |sent| ==> sent[k].id == k
    ensures multiset(sent[..n])[sent[i]] == if i < n then 1 else 0
  {
    if n > 0 {
      CountOfDistinct(sent, n - 1, i);
      assert sent[..n] == sent[..n - 1] + [sent[n - 1]];
    }
  }

  /** What polls have returned is a first-in-first-out prefix of what is ever enqueued later. */
  lemma {:induction false} ReturnedIsPrefix(parsers: Parsers, inputs: seq<Input>, more: seq<Input>)
    ensures Run(parsers, inputs).behaviour.returned <= Run(parsers, inputs + more).behaviour.Log()
    ensures Run(parsers, inputs).behaviour.Log() <= Run(parsers, inputs + more).behaviour.Log()
  {
    hide EventInv, Next;
    if more == [] {
      assert inputs + more == inputs;
    } else {
      var n := |more| - 1;
      ReturnedIsPrefix(parsers, inputs, more[..n]);
      EveryRunIsSafe(parsers, inputs + more[..n]);
      assert (inputs + more)[..|inputs + more| - 1] == inputs + more[..n];
      NextKeepsEvents(parsers, Run(parsers, inputs + more[..n]), more[n]);
    }
  }

  function Dials(n: nat): seq<Kind> {
    seq(n, _ => Dialed)
  }

  /** The word with the given lengths of completed dial rounds, then `tail` open dials. */
  function Word(rounds: seq<nat>, tail: nat): seq<Kind> {
    if rounds == [] then Dials(tail) else Word(rounds[..|rounds| - 1], rounds[|rounds| - 1]) + [Ended] + Dials(tail)
  }

  lemma {:induction false} LanguageIsUnrolled(events: seq<Kind>) returns (rounds: seq<nat>, tail: nat)
    requires InLanguage(events)
    ensures events == Word(rounds, tail) && forall i :: 0 <= i < |rounds| ==> rounds[i] >= 1
    ensures tail >= 1 <==> EndsDialing(events)
  {
    if events == [] {
      return [], 0;
    }
    var n := |events| - 1;
    rounds, tail := LanguageIsUnrolled(events[..n]);
    assert events == events[..n] + [events[n]];
    if events[n].Dialed? {
      assert Dials(tail + 1) == Dials(tail) + [Dialed];
      tail := tail + 1;
    } else {
      assert (rounds + [tail])[..|rounds|] == rounds;
      assert Dials(0) == [];
      rounds, tail := rounds + [tail], 0;
    }
  }

  lemma {:induction false} LanguagePrefix(log: seq<Action>, n: nat, p: PeerId)
    requires n <= |log| && InLanguage(Projection(log, p))
    ensures InLanguage(Projection(log[..n], p))
    decreases |log| - n
  {
    if n == |log| {
      assert log[..n] == log;
    } else {
      LanguagePrefix(log, n + 1, p);
      ProjectionAppend(log[..n], log[n], p);
      assert log[..n + 1] == log[..n] + [log[n]];
      assert Projection(log[..n], p) <= Projection(log[..n + 1], p);
    }
  }

  /** In what the application observes of one peer, each completed round is one or more dials and
      then a single outcome; only the last round may still be open. */
  lemma ObservedEventsAreWellFormed(parsers: Parsers, inputs: seq<Input>, p: PeerId) returns (rounds: seq<nat>, tail: nat)
    ensures Projection(Run(parsers, inputs).behaviour.returned, p) == Word(rounds, tail)
    ensures forall i :: 0 <= i < |rounds| ==> rounds[i] >= 1
  {
    EveryRunIsSafe(parsers, inputs);
    var s := Run(parsers, inputs).behaviour;
    hide Run, ConnectivityInv, TruthInv, RequestInv, Paired, Word;
    LanguagePrefix(s.Log(), |s.returned|, p);
    assert s.Log()[..|s.returned|] == s.returned;
    rounds, tail := LanguageIsUnrolled(Projection(s.returned, p));
  }

  predicate AlreadyConnected(parsers: Parsers, s: State, request: DialRequest) {
    && request.peer.recordType == RECORD_TYPE_LIBP2P
    && parsers.peerOf(request.peer.peerId).Some?
    && parsers.peerOf(request.peer.peerId).value in s.connected
  }

  /** How many of the first `ready` requests a poll takes off the channel: up to and
      including the first whose peer is not already connected. */
  function Admitted(parsers: Parsers, s: State, dials: seq<DialRequest>, ready: nat): (n: nat)
    ensures n <= ready && n <= |dials|
  {
    if ready == 0 || dials == [] then 0
    else if AlreadyConnected(parsers, s, dials[0]) then 1 + Admitted(parsers, s, dials[1..], ready - 1)
    else 1
  }

  lemma AcceptActs(parsers: Parsers, s: State, request: DialRequest)
    ensures var after := AfterAccept(parsers, s, request);
      && after.connected == s.connected && s.queue <= after.queue
      && (AlreadyConnected(parsers, s, request) <==> after.queue == s.queue)
      && (AlreadyConnected(parsers, s, request) ==> after == s.Answer([request], true))
  {
    hide Deliveries, Parsed;
  }

  /** A poll of a non-empty queue returns its oldest action and admits nothing. A poll of an
      empty one admits requests only until one of them produces an action. */
  lemma {:induction false} PollAdmission(parsers: Parsers, s: State, ready: nat)
    ensures s.queue != [] ==>
      AfterPoll(parsers, s, ready) == (s.(queue := s.queue[1..], returned := s.returned + [s.queue[0]]), Some(s.queue[0]))
    ensures s.queue == [] ==> AfterPoll(parsers, s, ready).0.dials == s.dials[Admitted(parsers, s, s.dials, ready)..]
    ensures AfterPoll(parsers, s, ready).1.None? ==>
      AfterPoll(parsers, s, ready).0.waiters == s.waiters && AfterPoll(parsers, s, ready).0.returned == s.returned
    decreases ready
  {
    hide AfterAccept, AlreadyConnected;
    if s.queue == [] && ready > 0 && s.dials != [] {
      var request := s.dials[0];
      var s0 := s.(dials := s.dials[1..]);
      var s1 := AfterAccept(parsers, s0, request);
      AcceptActs(parsers, s0, request);
      AcceptLeavesChannel(parsers, s0, request);
      SameConnected(parsers, s, s0, request);
      AdmittedDependsOnConnected(parsers, s, s1, s1.dials, ready - 1);
      PollAdmission(parsers, s1, ready - 1);
    }
  }

  lemma SameConnected(parsers: Parsers, s: State, t: State, request: DialRequest)
    requires s.connected == t.connected
    ensures AlreadyConnected(parsers, s, request) == AlreadyConnected(parsers, t, request)
  {
  }

  lemma {:induction false} AdmittedDependsOnConnected(parsers: Parsers, s: State, t: State, dials: seq<DialRequest>, ready: nat)
    requires s.connected == t.connected
    ensures Admitted(parsers, s, dials, ready) == Admitted(parsers, t, dials, ready)
    decreases ready
  {
    if ready > 0 && dials != [] {
      AdmittedDependsOnConnected(parsers, s, t, dials[1..], ready - 1);
    }
  }
}
