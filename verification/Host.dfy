/** Display texts of peers and addresses, and their sorted listings. */
module Listings {
  /** A peer identity or address, known by its canonical text. */
  datatype Text = Text(chars: string)

  /** Lexicographic order of strings. */
  predicate Less(a: string, b: string) {
    b != [] && (a == [] || a[0] < b[0] || (a[0] == b[0] && Less(a[1..], b[1..])))
  }

  predicate Before(a: Text, b: Text) {
    Less(a.chars, b.chars)
  }

  lemma {:induction false} LessIsTransitive(a: string, b: string, c: string)
    requires Less(a, b) && Less(b, c)
    ensures Less(a, c)
  {
    if a != [] && a[0] == b[0] && b[0] == c[0] {
      LessIsTransitive(a[1..], b[1..], c[1..]);
    }
  }

  lemma {:induction false} LessIsTotal(a: string, b: string)
    ensures a == b || Less(a, b) || Less(b, a)
    ensures !Less(a, a)
  {
    if a != [] {
      LessIsTotal(a[1..], if b == [] then [] else b[1..]);
      if b != [] && a[0] == b[0] && a[1..] == b[1..] {
        assert a == [a[0]] + a[1..] && b == [b[0]] + b[1..];
      }
    }
  }

  ghost predicate IsLeast(ids: set<Text>, least: Text) {
    least in ids && forall t :: t in ids && t != least ==> Before(least, t)
  }

  lemma LeastIsUnique(ids: set<Text>, a: Text, b: Text)
    requires IsLeast(ids, a) && IsLeast(ids, b)
    ensures a == b
  {
    if a != b {
      LessIsTransitive(a.chars, b.chars, a.chars);
      LessIsTotal(a.chars, a.chars);
    }
  }

  /** Each member once, in ascending order. */
  ghost predicate IsListing(ids: set<Text>, list: seq<Text>) {
    if list == [] then ids == {}
    else IsLeast(ids, list[0]) && IsListing(ids - {list[0]}, list[1..])
  }

  lemma {:induction false} ListingIsUnique(ids: set<Text>, a: seq<Text>, b: seq<Text>)
    requires IsListing(ids, a) && IsListing(ids, b)
    ensures a == b
  {
    if a != [] {
      LeastIsUnique(ids, a[0], b[0]);
      ListingIsUnique(ids - {a[0]}, a[1..], b[1..]);
      assert a == [a[0]] + a[1..] && b == [b[0]] + b[1..];
    }
  }

  /** A listing holds exactly the members, each once, in strictly ascending order. */
  lemma {:induction false} ListingIsSorted(ids: set<Text>, list: seq<Text>)
    requires IsListing(ids, list)
    ensures |list| == |ids|
    ensures forall t :: t in ids <==> t in list
    ensures forall i, j :: 0 <= i < j < |list| ==> Before(list[i], list[j])
  {
    if list != [] {
      var rest := ids - {list[0]};
      ListingIsSorted(rest, list[1..]);
      forall i, j | 0 <= i < j < |list|
        ensures Before(list[i], list[j])
      {
        assert list[j] == list[1..][j - 1];
        assert list[j] in rest;
        assert i > 0 ==> list[i] == list[1..][i - 1];
      }
      assert forall t :: t in list <==> t == list[0] || t in list[1..];
    }
  }

  method Least(ids: set<Text>) returns (least: Text)
    requires ids != {}
    ensures IsLeast(ids, least)
  {
    var rest := ids;
    least :| least in rest;
    rest := rest - {least};
    while rest != {}
      invariant rest <= ids && IsLeast(ids - rest, least)
      decreases |rest|
    {
      var t :| t in rest;
      LessIsTotal(t.chars, least.chars);
      LeastOfMore(ids - rest, least, t);
      rest := rest - {t};
      if Before(t, least) {
        least := t;
      }
      assert ids - rest == ids - (rest + {t}) + {t};
    }
    assert ids - rest == ids;
  }

  lemma LeastOfMore(ids: set<Text>, least: Text, t: Text)
    requires IsLeast(ids, least) && t !in ids
    ensures IsLeast(ids + {t}, if Before(t, least) then t else least)
  {
    LessIsTotal(t.chars, least.chars);
    if Before(t, least) {
      forall u | u in ids && u != least
        ensures Before(t, u)
      {
        LessIsTransitive(t.chars, least.chars, u.chars);
      }
    }
  }

  /** Collecting a set in whatever order it iterates, then sorting. */
  method Sorted(ids: set<Text>) returns (list: seq<Text>)
    ensures IsListing(ids, list)
  {
    if ids == {} {
      return [];
    }
    var least := Least(ids);
    var rest := Sorted(ids - {least});
    list := [least] + rest;
    assert list[1..] == rest;
  }

  ghost function Listing(ids: set<Text>): (list: seq<Text>)
    ensures IsListing(ids, list)
  {
    ListingExists(ids);
    var list :| IsListing(ids, list);
    list
  }

  lemma {:induction false} LeastExists(ids: set<Text>) returns (least: Text)
    requires ids != {}
    ensures IsLeast(ids, least)
  {
    var t :| t in ids;
    if ids == {t} {
      least := t;
    } else {
      var m := LeastExists(ids - {t});
      LeastOfMore(ids - {t}, m, t);
      assert ids - {t} + {t} == ids;
      least := if Before(t, m) then t else m;
    }
  }

  lemma {:induction false} ListingExists(ids: set<Text>)
    ensures exists list :: IsListing(ids, list)
  {
    if ids == {} {
      assert IsListing(ids, []);
    } else {
      var least := LeastExists(ids);
      ListingExists(ids - {least});
      var rest :| IsListing(ids - {least}, rest);
      assert ([least] + rest)[1..] == rest;
      assert IsListing(ids, [least] + rest);
    }
  }
}

/** The native host's event loop (crates/resurrect-node/src/p2p.rs). */
module Host {
  import opened Common
  import opened Candidates
  import opened Listings

  type PeerId = Text
  type Multiaddr = Text

  /** Library conversions of identities and addresses: any deterministic functions. */
  datatype Library = Library(
    peerOf: seq<byte> -> Option<PeerId>,
    bytesOf: PeerId -> seq<byte>,
    addressOf: string -> Option<Multiaddr>)

  datatype HostError = UnsupportedRecordType(recordType: u32) | InvalidPeerId | NoDialableEndpoint | DialFailed(message: string)

  datatype DialResult = Dialed | Refused(error: HostError)

  /** A dial command; `id` stands for its one-shot reply channel. */
  datatype Waiter = Waiter(id: nat, peer: Candidate)

  datatype Status = Status(listenAddresses: seq<Multiaddr>, connectedPeers: seq<PeerId>, nativePeers: nat)

  /** One answer, with the snapshot any observer could read at that moment. */
  datatype Reply = Reply(waiter: Waiter, result: DialResult, snapshot: Status)

  /** One call to the swarm's dial. */
  datatype Attempt = Attempt(peer: PeerId, addresses: seq<Multiaddr>)

  datatype SwarmEvent =
    | NewListenAddr(address: Multiaddr)
    | ExpiredListenAddr(address: Multiaddr)
    | ConnectionEstablished(peer: PeerId)
    | ConnectionClosed(peer: PeerId, remainingEstablished: nat)
    | OutgoingConnectionError(failed: Option<PeerId>, message: string)
    | MdnsDiscovered(found: seq<(PeerId, Multiaddr)>)
    | MdnsExpired(lost: seq<(PeerId, Multiaddr)>)
    | IdentifyReceived(peer: PeerId, listening: seq<Multiaddr>)
    | OtherEvent

  datatype State = State(
    connected: set<PeerId>,
    native: map<PeerId, set<Multiaddr>>,
    verified: map<PeerId, Candidate>,
    pending: map<PeerId, seq<Waiter>>,
    listenAddresses: set<Multiaddr>,
    status: Status,
    attempts: seq<Attempt>,
    replies: seq<Reply>)
  {
    ghost function Publish(): State {
      this.(status := Status(Listing(listenAddresses), Listing(connected), |native|))
    }

    function Answer(waiters: seq<Waiter>, result: DialResult): State {
      this.(replies := replies + Replies(waiters, result, status))
    }

    function Waiting(peer: PeerId): seq<Waiter> {
      if peer in pending then pending[peer] else []
    }

    function Addresses(peer: PeerId): set<Multiaddr> {
      AddressesIn(native, peer)
    }
  }

  function Replies(waiters: seq<Waiter>, result: DialResult, snapshot: Status): (r: seq<Reply>)
    ensures |r| == |waiters|
  {
    seq(|waiters|, i requires 0 <= i < |waiters| => Reply(waiters[i], result, snapshot))
  }

  function AddressesIn(native: map<PeerId, set<Multiaddr>>, peer: PeerId): set<Multiaddr> {
    if peer in native then native[peer] else {}
  }

  // ----- Commands -----

  /** `refusal` is the swarm's immediate answer to the dial, if it is one. */
  ghost function AfterDial(lib: Library, s: State, w: Waiter, refusal: Option<string>): State {
    if w.peer.recordType != RECORD_TYPE_LIBP2P then s.Answer([w], Refused(UnsupportedRecordType(w.peer.recordType)))
    else
      match lib.peerOf(w.peer.peerId)
      case None => s.Answer([w], Refused(InvalidPeerId))
      case Some(peer) =>
        if peer in s.connected then s.Answer([w], Dialed)
        else
          var addresses := Parsed(lib.addressOf, w.peer.endpoints);
          if addresses == [] then s.Answer([w], Refused(NoDialableEndpoint))
          else
            var dialing := s.(attempts := s.attempts + [Attempt(peer, addresses)]);
            match refusal
            case Some(message) => dialing.Answer([w], Refused(DialFailed(message)))
            case None => dialing.(pending := s.pending[peer := s.Waiting(peer) + [w]])
  }

  ghost function AfterAddVerified(lib: Library, s: State, candidate: Candidate): State {
    match lib.peerOf(candidate.peerId)
    case Some(peer) => s.(verified := s.verified[peer := candidate]).Publish()
    case None => s.Publish()
  }

  /** The waiters whose receiver still exists, in order. */
  function Open(waiters: seq<Waiter>, closed: set<nat>): (r: seq<Waiter>)
    ensures forall w :: w in r <==> w in waiters && w.id !in closed
  {
    if waiters == [] then []
    else
      var n := |waiters| - 1;
      Open(waiters[..n], closed) + if waiters[n].id in closed then [] else [waiters[n]]
  }

  function Pruned(pending: map<PeerId, seq<Waiter>>, closed: set<nat>): map<PeerId, seq<Waiter>> {
    map p | p in pending && Open(pending[p], closed) != [] :: Open(pending[p], closed)
  }

  // ----- Swarm events -----

  function WithAddresses(native: map<PeerId, set<Multiaddr>>, found: seq<(PeerId, Multiaddr)>): map<PeerId, set<Multiaddr>> {
    if found == [] then native
    else
      var n := |found| - 1;
      var before := WithAddresses(native, found[..n]);
      before[found[n].0 := AddressesIn(before, found[n].0) + {found[n].1}]
  }

  function WithoutAddress(native: map<PeerId, set<Multiaddr>>, peer: PeerId, address: Multiaddr): map<PeerId, set<Multiaddr>> {
    if peer !in native then native
    else if native[peer] - {address} == {} then native - {peer}
    else native[peer := native[peer] - {address}]
  }

  function WithoutAddresses(native: map<PeerId, set<Multiaddr>>, lost: seq<(PeerId, Multiaddr)>): map<PeerId, set<Multiaddr>> {
    if lost == [] then native
    else
      var n := |lost| - 1;
      WithoutAddress(WithoutAddresses(native, lost[..n]), lost[n].0, lost[n].1)
  }

  function Members(addresses: seq<Multiaddr>): set<Multiaddr> {
    set a | a in addresses
  }

  function AfterWake(s: State, peer: PeerId, result: DialResult): State {
    if peer in s.pending then s.(pending := s.pending - {peer}).Answer(s.pending[peer], result) else s
  }

  ghost function AfterSwarmEvent(s: State, event: SwarmEvent): State {
    match event
    case NewListenAddr(address) => s.(listenAddresses := s.listenAddresses + {address}).Publish()
    case ExpiredListenAddr(address) => s.(listenAddresses := s.listenAddresses - {address}).Publish()
    case ConnectionEstablished(peer) => AfterWake(s.(connected := s.connected + {peer}).Publish(), peer, Dialed)
    case ConnectionClosed(peer, remaining) =>
      if remaining == 0 then s.(connected := s.connected - {peer}).Publish() else s
    case OutgoingConnectionError(failed, message) =>
      if failed.Some? then AfterWake(s, failed.value, Refused(DialFailed(message))) else s
    case MdnsDiscovered(found) => s.(native := WithAddresses(s.native, found)).Publish()
    case MdnsExpired(lost) => s.(native := WithoutAddresses(s.native, lost)).Publish()
    case IdentifyReceived(peer, listening) =>
      s.(native := s.native[peer := s.Addresses(peer) + Members(listening)]).Publish()
    case OtherEvent => s
  }

  /** Configured peers seed the native view; nothing has been published yet. */
  function Initial(configured: seq<(PeerId, Multiaddr)>): State {
    State({}, WithAddresses(map[], configured), map[], map[], {}, Status([], [], 0), [], [])
  }

  // ----- The loop as it runs -----

  class EventLoop {
    const lib: Library
    var connected: set<PeerId>
    var native: map<PeerId, set<Multiaddr>>
    var verified: map<PeerId, Candidate>
    var pending: map<PeerId, seq<Waiter>>
    var listenAddresses: set<Multiaddr>
    var status: Status
    var attempts: seq<Attempt>
    var replies: seq<Reply>

    ghost function Now(): State
      reads this
    {
      State(connected, native, verified, pending, listenAddresses, status, attempts, replies)
    }

    constructor (lib: Library, configured: seq<(PeerId, Multiaddr)>)
      ensures this.lib == lib && Now() == Initial(configured)
    {
      this.lib := lib;
      connected, native, verified, pending, listenAddresses := {}, map[], map[], map[], {};
      status, attempts, replies := Status([], [], 0), [], [];
      new;
      AddAddresses(configured);
    }

    method AddAddresses(found: seq<(PeerId, Multiaddr)>)
      modifies this`native
      ensures native == WithAddresses(old(native), found)
    {
      var i := 0;
      while i < |found|
        invariant 0 <= i <= |found| && native == WithAddresses(old(native), found[..i])
      {
        var (peer, address) := found[i];
        native := native[peer := (if peer in native then native[peer] else {}) + {address}];
        assert found[..i + 1][..i] == found[..i];
        i := i + 1;
      }
      assert found[..i] == found;
    }

    method RemoveAddresses(lost: seq<(PeerId, Multiaddr)>)
      modifies this`native
      ensures native == WithoutAddresses(old(native), lost)
    {
      var i := 0;
      while i < |lost|
        invariant 0 <= i <= |lost| && native == WithoutAddresses(old(native), lost[..i])
      {
        var (peer, address) := lost[i];
        if peer in native {
          native := native[peer := native[peer] - {address}];
          if native[peer] == {} {
            native := native - {peer};
          }
        }
        assert lost[..i + 1][..i] == lost[..i];
        i := i + 1;
      }
      assert lost[..i] == lost;
    }

    method PublishStatus()
      modifies this`status
      ensures Now() == old(Now()).Publish()
    {
      var connectedPeers := Sorted(connected);
      var addresses := Sorted(listenAddresses);
      ListingIsUnique(connected, connectedPeers, Listing(connected));
      ListingIsUnique(listenAddresses, addresses, Listing(listenAddresses));
      status := Status(addresses, connectedPeers, |native|);
    }

    method Send(waiter: Waiter, result: DialResult)
      modifies this`replies
      ensures Now() == old(Now()).Answer([waiter], result)
    {
      replies := replies + [Reply(waiter, result, status)];
      assert replies == old(replies) + Replies([waiter], result, status);
    }

    method Wake(peer: PeerId, result: DialResult)
      modifies this`pending, this`replies
      ensures Now() == AfterWake(old(Now()), peer, result)
    {
      if peer in pending {
        var waiters := pending[peer];
        pending := pending - {peer};
        var i := 0;
        while i < |waiters|
          invariant 0 <= i <= |waiters| && pending == old(pending) - {peer}
          invariant replies == old(replies) + Replies(waiters[..i], result, status)
        {
          Send(waiters[i], result);
          assert Replies(waiters[..i + 1], result, status)
              == Replies(waiters[..i], result, status) + Replies([waiters[i]], result, status);
          i := i + 1;
        }
        assert waiters[..i] == waiters;
      }
    }

    method Dial(waiter: Waiter, refusal: Option<string>)
      modifies this
      ensures Now() == AfterDial(lib, old(Now()), waiter, refusal)
    {
      if waiter.peer.recordType != RECORD_TYPE_LIBP2P {
        Send(waiter, Refused(UnsupportedRecordType(waiter.peer.recordType)));
        return;
      }
      var peerId := lib.peerOf(waiter.peer.peerId);
      if peerId.None? {
        Send(waiter, Refused(InvalidPeerId));
        return;
      }
      var peer := peerId.value;
      if peer in connected {
        Send(waiter, Dialed);
        return;
      }
      var addresses := Parsed(lib.addressOf, waiter.peer.endpoints);
      if addresses == [] {
        Send(waiter, Refused(NoDialableEndpoint));
        return;
      }
      attempts := attempts + [Attempt(peer, addresses)];
      match refusal {
        case None => pending := pending[peer := (if peer in pending then pending[peer] else []) + [waiter]];
        case Some(message) => Send(waiter, Refused(DialFailed(message)));
      }
    }

    method AddVerified(candidate: Candidate)
      modifies this
      ensures Now() == AfterAddVerified(lib, old(Now()), candidate)
    {
      var peerId := lib.peerOf(candidate.peerId);
      if peerId.Some? {
        verified := verified[peerId.value := candidate];
      }
      PublishStatus();
    }

    method PruneDialWaiters(closed: set<nat>)
      modifies this`pending
      ensures Now() == old(Now()).(pending := Pruned(old(pending), closed))
    {
      var rest := pending.Keys;
      while rest != {}
        invariant rest <= old(pending).Keys
        invariant forall p :: p in pending <==> p in old(pending) && (p in rest || Open(old(pending)[p], closed) != [])
        invariant forall p :: p in pending ==> pending[p] == if p in rest then old(pending)[p] else Open(old(pending)[p], closed)
        decreases |rest|
      {
        var peer :| peer in rest;
        rest := rest - {peer};
        var waiters := Retain(pending[peer], closed);
        pending := if waiters == [] then pending - {peer} else pending[peer := waiters];
      }
    }

    method HandleSwarm(event: SwarmEvent)
      modifies this
      ensures Now() == AfterSwarmEvent(old(Now()), event)
    {
      hide WithAddresses, WithoutAddresses, Listing, IsListing, Replies, AfterWake;
      match event {
        case NewListenAddr(address) =>
          listenAddresses := listenAddresses + {address};
          PublishStatus();
        case ExpiredListenAddr(address) =>
          listenAddresses := listenAddresses - {address};
          PublishStatus();
        case ConnectionEstablished(peer) =>
          connected := connected + {peer};
          PublishStatus();
          Wake(peer, Dialed);
        case ConnectionClosed(peer, remaining) =>
          if remaining == 0 {
            connected := connected - {peer};
            PublishStatus();
          }
        case OutgoingConnectionError(failed, message) =>
          if failed.Some? {
            Wake(failed.value, Refused(DialFailed(message)));
          }
        case MdnsDiscovered(found) =>
          AddAddresses(found);
          PublishStatus();
        case MdnsExpired(lost) =>
          RemoveAddresses(lost);
          PublishStatus();
        case IdentifyReceived(peer, listening) =>
          native := native[peer := (if peer in native then native[peer] else {}) + Members(listening)];
          PublishStatus();
        case OtherEvent =>
      }
    }

    /** Every native peer once, in whatever order the map iterates, as an unsigned candidate. */
    method NativeCandidates() returns (list: seq<Candidate>)
      ensures |list| == |native|
      ensures forall p :: p in native ==> ListsPeer(lib, p, native[p], list)
      ensures forall c :: c in list ==> IsNative(lib, native, c)
    {
      hide OffersNative, ListsPeer, IsNative;
      list := [];
      var rest := native.Keys;
      assert |native| == |rest|;
      while rest != {}
        invariant rest <= native.Keys && |list| == |native| - |rest|
        invariant forall p :: p in native && p !in rest ==> ListsPeer(lib, p, native[p], list)
        invariant forall c :: c in list ==> IsNative(lib, native, c)
        decreases |rest|
      {
        var peer :| peer in rest;
        rest := rest - {peer};
        var endpoints := Endpoints(native[peer]);
        ghost var before := list;
        list := list + [NativeCandidate(lib, peer, endpoints)];
        OfferIsNative(lib, native, peer, endpoints, before);
        forall p | p in native && p !in rest && p != peer
          ensures ListsPeer(lib, p, native[p], list)
        {
          ListsPeerStill(lib, p, native[p], before, NativeCandidate(lib, peer, endpoints));
        }
      }
    }
  }

  method Retain(waiters: seq<Waiter>, closed: set<nat>) returns (open: seq<Waiter>)
    ensures open == Open(waiters, closed)
  {
    open := [];
    var i := 0;
    while i < |waiters|
      invariant 0 <= i <= |waiters| && open == Open(waiters[..i], closed)
    {
      assert waiters[..i + 1][..i] == waiters[..i];
      if waiters[i].id !in closed {
        open := open + [waiters[i]];
      }
      i := i + 1;
    }
    assert waiters[..i] == waiters;
  }

  method Endpoints(addresses: set<Multiaddr>) returns (endpoints: seq<string>)
    ensures |endpoints| == |addresses| && forall t: string :: t in endpoints <==> Text(t) in addresses
  {
    endpoints := [];
    var rest := addresses;
    while rest != {}
      invariant rest <= addresses && |endpoints| + |rest| == |addresses|
      invariant forall t: string :: t in endpoints <==> Text(t) in addresses - rest
      decreases |rest|
    {
      var a :| a in rest;
      rest := rest - {a};
      endpoints := endpoints + [a.chars];
    }
  }

  function NativeCandidate(lib: Library, peer: PeerId, endpoints: seq<string>): Candidate {
    Candidate(RECORD_TYPE_LIBP2P, lib.bytesOf(peer), 0, endpoints, [], U64_MAX, Native, None, None)
  }

  ghost predicate ListsPeer(lib: Library, peer: PeerId, addresses: set<Multiaddr>, list: seq<Candidate>) {
    exists c :: c in list && OffersNative(lib, peer, addresses, c)
  }

  ghost predicate IsNative(lib: Library, native: map<PeerId, set<Multiaddr>>, c: Candidate) {
    exists p :: p in native && OffersNative(lib, p, native[p], c)
  }

  lemma OfferIsNative(lib: Library, native: map<PeerId, set<Multiaddr>>, peer: PeerId, endpoints: seq<string>, before: seq<Candidate>)
    requires peer in native && forall t: string :: t in endpoints <==> Text(t) in native[peer]
    ensures var c := NativeCandidate(lib, peer, endpoints);
      ListsPeer(lib, peer, native[peer], before + [c]) && IsNative(lib, native, c)
  {
    var c := NativeCandidate(lib, peer, endpoints);
    assert c in before + [c] && OffersNative(lib, peer, native[peer], c);
  }

  lemma ListsPeerStill(lib: Library, peer: PeerId, addresses: set<Multiaddr>, list: seq<Candidate>, c: Candidate)
    requires ListsPeer(lib, peer, addresses, list)
    ensures ListsPeer(lib, peer, addresses, list + [c])
  {
    hide OffersNative;
    var d :| d in list && OffersNative(lib, peer, addresses, d);
    assert d in list + [c];
  }

  ghost predicate OffersNative(lib: Library, peer: PeerId, addresses: set<Multiaddr>, c: Candidate) {
    && c == Candidate(2, lib.bytesOf(peer), 0, c.endpoints, [], 0xFFFF_FFFF_FFFF_FFFF, Native, None, None)
    && forall t: string :: t in c.endpoints <==> Text(t) in addresses
  }

  // ----- Native discovery -----

  ghost predicate Mentions(pairs: seq<(PeerId, Multiaddr)>, p: PeerId) {
    exists i :: 0 <= i < |pairs| && pairs[i].0 == p
  }

  lemma OnePairMore(pairs: seq<(PeerId, Multiaddr)>, pair: (PeerId, Multiaddr), p: PeerId)
    ensures Mentions(pairs + [pair], p) <==> Mentions(pairs, p) || pair.0 == p
    ensures forall a :: (p, a) in pairs + [pair] <==> (p, a) in pairs || pair == (p, a)
  {
    var all := pairs + [pair];
    assert all[|pairs|] == pair;
    if i :| 0 <= i < |pairs| && pairs[i].0 == p {
      assert all[i].0 == p;
    }
  }

  lemma OneAddressMore(native: map<PeerId, set<Multiaddr>>, found: seq<(PeerId, Multiaddr)>, pair: (PeerId, Multiaddr))
    ensures var before := WithAddresses(native, found);
      WithAddresses(native, found + [pair]) == before[pair.0 := AddressesIn(before, pair.0) + {pair.1}]
  {
    assert (found + [pair])[..|found|] == found;
  }

  /** Discovery adds exactly the addresses found, and forgets nobody. */
  lemma {:induction false} DiscoveryAdds(native: map<PeerId, set<Multiaddr>>, found: seq<(PeerId, Multiaddr)>, p: PeerId)
    ensures var after := WithAddresses(native, found);
      && (p in after <==> p in native || Mentions(found, p))
      && forall a :: a in AddressesIn(after, p) <==> a in AddressesIn(native, p) || (p, a) in found
  {
    hide Mentions, WithAddresses;
    if found == [] {
      NothingFound(native, p);
    } else {
      var n := |found| - 1;
      DiscoveryAdds(native, found[..n], p);
      assert found == found[..n] + [found[n]];
      OneAddressMore(native, found[..n], found[n]);
      OnePairMore(found[..n], found[n], p);
    }
  }

  lemma NothingFound(native: map<PeerId, set<Multiaddr>>, p: PeerId)
    ensures WithAddresses(native, []) == native && WithoutAddresses(native, []) == native && !Mentions([], p)
  {
  }

  lemma OneAddressLess(native: map<PeerId, set<Multiaddr>>, lost: seq<(PeerId, Multiaddr)>, pair: (PeerId, Multiaddr))
    ensures WithoutAddresses(native, lost + [pair]) == WithoutAddress(WithoutAddresses(native, lost), pair.0, pair.1)
  {
    assert (lost + [pair])[..|lost|] == lost;
  }

  /** Expiry removes exactly the addresses lost; a peer goes when an expiry leaves it without any. */
  lemma {:induction false} ExpiryRemoves(native: map<PeerId, set<Multiaddr>>, lost: seq<(PeerId, Multiaddr)>, p: PeerId)
    ensures var after := WithoutAddresses(native, lost);
      && (forall a :: a in AddressesIn(after, p) <==> a in AddressesIn(native, p) && (p, a) !in lost)
      && (p in after <==> p in native && (AddressesIn(after, p) != {} || !Mentions(lost, p)))
  {
    hide Mentions, WithoutAddresses;
    if lost == [] {
      NothingFound(native, p);
    } else {
      var n := |lost| - 1;
      ExpiryRemoves(native, lost[..n], p);
      assert lost == lost[..n] + [lost[n]];
      OneAddressLess(native, lost[..n], lost[n]);
      OnePairMore(lost[..n], lost[n], p);
    }
  }

  lemma {:induction false} SomeEndpointParses(addressOf: string -> Option<Multiaddr>, endpoints: seq<string>)
    ensures Parsed(addressOf, endpoints) == [] <==> forall t :: t in endpoints ==> addressOf(t).None?
  {
    if endpoints != [] {
      var n := |endpoints| - 1;
      SomeEndpointParses(addressOf, endpoints[..n]);
      assert endpoints == endpoints[..n] + [endpoints[n]];
    }
  }

  /** A native candidate offered for dialing passes the type and identity checks, is dialed under
      its own peer when it has an address, and never displaces a signed record. */
  lemma NativeCandidateIsDialable(lib: Library, s: State, peer: PeerId, c: Candidate, id: nat, refusal: Option<string>)
    requires peer in s.native && OffersNative(lib, peer, s.native[peer], c)
    requires lib.peerOf(lib.bytesOf(peer)) == Some(peer)
    requires forall a :: a in s.native[peer] ==> lib.addressOf(a.chars) == Some(a)
    ensures var after := AfterDial(lib, s, Waiter(id, c), refusal);
      if peer in s.connected then after == s.Answer([Waiter(id, c)], Dialed)
      else if s.native[peer] == {} then after == s.Answer([Waiter(id, c)], Refused(NoDialableEndpoint))
      else after.attempts != s.attempts && (refusal.None? ==> Waiter(id, c) in after.Waiting(peer))
    ensures forall d: Candidate :: d.IdentityKey() == c.IdentityKey() ==> !Fresher(c, d)
  {
    hide Replies, Parsed;
    SomeEndpointParses(lib.addressOf, c.endpoints);
    EndpointsMirrorAddresses(lib, peer, s.native[peer], c);
    if c.endpoints != [] {
      assert c.endpoints[0] in c.endpoints && Text(c.endpoints[0]) in s.native[peer];
    }
  }

  lemma EndpointsMirrorAddresses(lib: Library, peer: PeerId, addresses: set<Multiaddr>, c: Candidate)
    requires OffersNative(lib, peer, addresses, c)
    ensures c.endpoints == [] <==> addresses == {}
  {
    if c.endpoints != [] {
      assert Text(c.endpoints[0]) in addresses;
    }
    if addresses != {} {
      var a :| a in addresses;
      assert a == Text(a.chars) && a.chars in c.endpoints;
    }
  }

  // ----- Runs: every interleaving of commands, swarm events and dropped receivers -----

  datatype Input =
    | DialCommand(candidate: Candidate, refusal: Option<string>)
    | AddVerifiedCommand(record: Candidate)
    | PruneCommand
    | ReceiverDropped(id: nat)
    | FromSwarm(event: SwarmEvent)

  /** The loop's state, every dial ever requested, the dropped receivers, and whether the
      loop has replaced the initial snapshot yet. */
  datatype World = World(host: State, sent: seq<Waiter>, closed: set<nat>, published: bool)

  predicate Publishes(input: Input) {
    match input
    case AddVerifiedCommand(_) => true
    case FromSwarm(event) => !event.OtherEvent? && !event.OutgoingConnectionError? && (event.ConnectionClosed? ==> event.remainingEstablished == 0)
    case _ => false
  }

  ghost function AfterInput(lib: Library, s: State, input: Input, id: nat, closed: set<nat>): State {
    match input
    case DialCommand(candidate, refusal) => AfterDial(lib, s, Waiter(id, candidate), refusal)
    case AddVerifiedCommand(record) => AfterAddVerified(lib, s, record)
    case PruneCommand => s.(pending := Pruned(s.pending, closed))
    case ReceiverDropped(_) => s
    case FromSwarm(event) => AfterSwarmEvent(s, event)
  }

  ghost function Next(lib: Library, w: World, input: Input): World {
    World(AfterInput(lib, w.host, input, |w.sent|, w.closed),
          if input.DialCommand? then w.sent + [Waiter(|w.sent|, input.candidate)] else w.sent,
          if input.ReceiverDropped? then w.closed + {input.id} else w.closed,
          w.published || Publishes(input))
  }

  ghost function Run(lib: Library, configured: seq<(PeerId, Multiaddr)>, inputs: seq<Input>): World {
    if inputs == [] then World(Initial(configured), [], {}, false)
    else Next(lib, Run(lib, configured, inputs[..|inputs| - 1]), inputs[|inputs| - 1])
  }

  // ----- Pending peers and the snapshot -----

  ghost predicate PendingInv(s: State) {
    forall p :: p in s.pending ==> p !in s.connected && s.pending[p] != []
  }

  ghost predicate SnapshotInv(s: State) {
    s.status.connectedPeers == Listing(s.connected) && s.status.listenAddresses == Listing(s.listenAddresses)
  }

  /** The native count is right from the first publication on. */
  ghost predicate NativeInv(configured: seq<(PeerId, Multiaddr)>, s: State, published: bool) {
    if published then s.status.nativePeers == |s.native|
    else s.status.nativePeers == 0 && s.native == WithAddresses(map[], configured)
  }

  lemma InputKeepsPending(lib: Library, s: State, input: Input, id: nat, closed: set<nat>)
    requires PendingInv(s)
    ensures PendingInv(AfterInput(lib, s, input, id, closed))
  {
    hide Replies, Parsed, Listing, IsListing, WithAddresses, WithoutAddresses;
  }

  lemma InputKeepsSnapshot(lib: Library, s: State, input: Input, id: nat, closed: set<nat>)
    requires SnapshotInv(s)
    ensures SnapshotInv(AfterInput(lib, s, input, id, closed))
  {
    hide Listing, IsListing, Replies, AfterDial, WithAddresses, WithoutAddresses, Pruned;
    if input.DialCommand? {
      var _, _ := DialOutcome(lib, s, Waiter(id, input.candidate), input.refusal);
    }
  }

  lemma InputKeepsNative(lib: Library, configured: seq<(PeerId, Multiaddr)>, s: State, input: Input, id: nat, closed: set<nat>,
                         published: bool)
    requires NativeInv(configured, s, published)
    ensures NativeInv(configured, AfterInput(lib, s, input, id, closed), published || Publishes(input))
  {
    hide Replies, AfterDial, Listing, IsListing, WithAddresses, WithoutAddresses, Pruned;
    if input.DialCommand? {
      var _, _ := DialOutcome(lib, s, Waiter(id, input.candidate), input.refusal);
    }
  }

  // ----- The views follow the inputs -----

  /** One entry of the loop's views: a connection, a listener, an address of a native peer, or the
      last verified record of a peer. */
  datatype Entry =
    | Connected(peer: PeerId)
    | Listening(address: Multiaddr)
    | Reachable(peer: PeerId, address: Multiaddr)
    | Recorded(peer: PeerId, record: Candidate)

  predicate Holds(s: State, e: Entry) {
    match e
    case Connected(p) => p in s.connected
    case Listening(a) => a in s.listenAddresses
    case Reachable(p, a) => p in s.native && a in s.native[p]
    case Recorded(p, c) => p in s.verified && s.verified[p] == c
  }

  predicate Gives(lib: Library, input: Input, e: Entry) {
    match e
    case Connected(p) => input == FromSwarm(ConnectionEstablished(p))
    case Listening(a) => input == FromSwarm(NewListenAddr(a))
    case Reachable(p, a) => Discovers(input, p, a)
    case Recorded(p, c) => input == AddVerifiedCommand(c) && lib.peerOf(c.peerId) == Some(p)
  }

  predicate Takes(lib: Library, input: Input, e: Entry) {
    match e
    case Connected(p) => input == FromSwarm(ConnectionClosed(p, 0))
    case Listening(a) => input == FromSwarm(ExpiredListenAddr(a))
    case Reachable(p, a) => Expires(input, p, a)
    case Recorded(p, _) => input.AddVerifiedCommand? && lib.peerOf(input.record.peerId) == Some(p)
  }

  predicate Discovers(input: Input, p: PeerId, a: Multiaddr) {
    && input.FromSwarm?
    && match input.event
       case MdnsDiscovered(found) => (p, a) in found
       case IdentifyReceived(peer, listening) => peer == p && a in listening
       case _ => false
  }

  predicate Expires(input: Input, p: PeerId, a: Multiaddr) {
    input.FromSwarm? && input.event.MdnsExpired? && (p, a) in input.event.lost
  }

  /** Some input gives the entry, or it was configured, and no later input takes it. */
  ghost predicate Stands(lib: Library, configured: seq<(PeerId, Multiaddr)>, inputs: seq<Input>, e: Entry) {
    || (exists i :: 0 <= i < |inputs| && Gives(lib, inputs[i], e) && NoneTakes(lib, inputs[i + 1..], e))
    || (e.Reachable? && (e.peer, e.address) in configured && NoneTakes(lib, inputs, e))
  }

  ghost predicate NoneTakes(lib: Library, inputs: seq<Input>, e: Entry) {
    forall input :: input in inputs ==> !Takes(lib, input, e)
  }

  lemma StandsStep(lib: Library, configured: seq<(PeerId, Multiaddr)>, before: seq<Input>, input: Input, e: Entry)
    ensures Stands(lib, configured, before + [input], e)
       <==> Gives(lib, input, e) || (Stands(lib, configured, before, e) && !Takes(lib, input, e))
  {
    hide Gives, Takes;
    var n := |before|;
    var inputs := before + [input];
    forall i | 0 <= i < n
      ensures inputs[i] == before[i]
      ensures NoneTakes(lib, inputs[i + 1..], e) <==> NoneTakes(lib, before[i + 1..], e) && !Takes(lib, input, e)
    {
      assert inputs[i + 1..] == before[i + 1..] + [input];
    }
    assert inputs[n] == input && inputs[n + 1..] == [];
    if i :| 0 <= i < n && Gives(lib, before[i], e) && NoneTakes(lib, before[i + 1..], e) && !Takes(lib, input, e) {
      assert Gives(lib, inputs[i], e);
    }
  }

  lemma DialLeavesViews(lib: Library, s: State, w: Waiter, refusal: Option<string>)
    ensures var after := AfterDial(lib, s, w, refusal);
      && (after.connected, after.listenAddresses) == (s.connected, s.listenAddresses)
      && (after.native, after.verified, after.status) == (s.native, s.verified, s.status)
  {
    hide Replies, AfterDial;
    var _, _ := DialOutcome(lib, s, w, refusal);
  }

  /** Each input changes the views by what it gives and takes alone. */
  lemma HoldsStep(lib: Library, s: State, input: Input, id: nat, closed: set<nat>, e: Entry)
    ensures Holds(AfterInput(lib, s, input, id, closed), e) <==> Gives(lib, input, e) || (Holds(s, e) && !Takes(lib, input, e))
  {
    hide Replies, AfterDial, Listing, IsListing, AfterSwarmEvent, Pruned;
    match input {
      case DialCommand(candidate, refusal) => DialLeavesViews(lib, s, Waiter(id, candidate), refusal);
      case FromSwarm(event) => EventStep(lib, s, event, e);
      case _ =>
    }
  }

  lemma EventStep(lib: Library, s: State, event: SwarmEvent, e: Entry)
    ensures var input := FromSwarm(event);
      Holds(AfterSwarmEvent(s, event), e) <==> Gives(lib, input, e) || (Holds(s, e) && !Takes(lib, input, e))
  {
    hide Replies, Listing, IsListing, WithAddresses, WithoutAddresses;
    if e.Reachable? {
      AddressStep(s, event, e.peer, e.address);
    }
  }

  lemma AddressStep(s: State, event: SwarmEvent, p: PeerId, a: Multiaddr)
    ensures a in AfterSwarmEvent(s, event).Addresses(p)
       <==> Discovers(FromSwarm(event), p, a) || (a in s.Addresses(p) && !Expires(FromSwarm(event), p, a))
  {
    hide Replies, Listing, IsListing, WithAddresses, WithoutAddresses, Mentions, AddressesIn;
    match event {
      case MdnsDiscovered(found) => DiscoveryAdds(s.native, found, p);
      case MdnsExpired(lost) => ExpiryRemoves(s.native, lost, p);
      case IdentifyReceived(peer, listening) => IdentifyAdds(s.native, peer, listening, p);
      case _ =>
    }
  }

  lemma IdentifyAdds(native: map<PeerId, set<Multiaddr>>, peer: PeerId, listening: seq<Multiaddr>, p: PeerId)
    ensures var after := native[peer := AddressesIn(native, peer) + Members(listening)];
      forall a :: a in AddressesIn(after, p) <==> a in AddressesIn(native, p) || (p == peer && a in listening)
  {
  }

  /** A peer is connected, an address listened on, a native address known and a record verified
      exactly when the last input about it says so. */
  lemma {:induction false} ViewsFollowInputs(lib: Library, configured: seq<(PeerId, Multiaddr)>, inputs: seq<Input>, e: Entry)
    ensures Holds(Run(lib, configured, inputs).host, e) <==> Stands(lib, configured, inputs, e)
  {
    hide Gives, Takes, Holds, AfterInput, Stands;
    if inputs == [] {
      InitialEntries(lib, configured, e);
    } else {
      var n := |inputs| - 1;
      var w := Run(lib, configured, inputs[..n]);
      ViewsFollowInputs(lib, configured, inputs[..n], e);
      HoldsStep(lib, w.host, inputs[n], |w.sent|, w.closed, e);
      StandsStep(lib, configured, inputs[..n], inputs[n], e);
      assert inputs == inputs[..n] + [inputs[n]];
    }
  }

  lemma InitialEntries(lib: Library, configured: seq<(PeerId, Multiaddr)>, e: Entry)
    ensures Holds(Initial(configured), e) <==> Stands(lib, configured, [], e)
  {
    hide WithAddresses;
    if e.Reachable? {
      DiscoveryAdds(map[], configured, e.peer);
    }
  }

  ghost predicate LastSays(inputs: seq<Input>, gain: SwarmEvent, loss: SwarmEvent) {
    exists i :: 0 <= i < |inputs| && inputs[i] == FromSwarm(gain) && FromSwarm(loss) !in inputs[i + 1..]
  }

  /** The published snapshot read off the inputs: a peer is listed as connected exactly when some
      establishment with it is not followed by the close of its last connection, and an address is
      listed exactly when some listener event for it is not followed by its expiry. */
  lemma SnapshotFollowsInputs(lib: Library, configured: seq<(PeerId, Multiaddr)>, inputs: seq<Input>)
    ensures var status := Run(lib, configured, inputs).host.status;
      && (forall p :: p in status.connectedPeers <==> LastSays(inputs, ConnectionEstablished(p), ConnectionClosed(p, 0)))
      && (forall a :: a in status.listenAddresses <==> LastSays(inputs, NewListenAddr(a), ExpiredListenAddr(a)))
  {
    hide Run, Listing, IsListing, Stands;
    var s := Run(lib, configured, inputs).host;
    EveryRunIsSafe(lib, configured, inputs);
    ListingIsSorted(s.connected, Listing(s.connected));
    ListingIsSorted(s.listenAddresses, Listing(s.listenAddresses));
    forall p
      ensures p in s.connected <==> LastSays(inputs, ConnectionEstablished(p), ConnectionClosed(p, 0))
    {
      ViewsFollowInputs(lib, configured, inputs, Connected(p));
      ConnectionStands(lib, configured, inputs, p);
    }
    forall a
      ensures a in s.listenAddresses <==> LastSays(inputs, NewListenAddr(a), ExpiredListenAddr(a))
    {
      ViewsFollowInputs(lib, configured, inputs, Listening(a));
      ListenerStands(lib, configured, inputs, a);
    }
  }

  lemma ConnectionStands(lib: Library, configured: seq<(PeerId, Multiaddr)>, inputs: seq<Input>, p: PeerId)
    ensures Stands(lib, configured, inputs, Connected(p)) <==> LastSays(inputs, ConnectionEstablished(p), ConnectionClosed(p, 0))
  {
    if i :| 0 <= i < |inputs| && inputs[i] == FromSwarm(ConnectionEstablished(p)) && FromSwarm(ConnectionClosed(p, 0)) !in inputs[i + 1..] {
      assert Gives(lib, inputs[i], Connected(p)) && NoneTakes(lib, inputs[i + 1..], Connected(p));
    }
  }

  lemma ListenerStands(lib: Library, configured: seq<(PeerId, Multiaddr)>, inputs: seq<Input>, a: Multiaddr)
    ensures Stands(lib, configured, inputs, Listening(a)) <==> LastSays(inputs, NewListenAddr(a), ExpiredListenAddr(a))
  {
    if i :| 0 <= i < |inputs| && inputs[i] == FromSwarm(NewListenAddr(a)) && FromSwarm(ExpiredListenAddr(a)) !in inputs[i + 1..] {
      assert Gives(lib, inputs[i], Listening(a)) && NoneTakes(lib, inputs[i + 1..], Listening(a));
    }
  }

  /** Identify has introduced the peer, and no expiry has named it since. */
  ghost predicate Introduced(inputs: seq<Input>, p: PeerId) {
    exists i :: 0 <= i < |inputs| && Introduces(inputs[i], p) && forall input :: input in inputs[i + 1..] ==> !Forgets(input, p)
  }

  predicate Introduces(input: Input, p: PeerId) {
    input.FromSwarm? && input.event.IdentifyReceived? && input.event.peer == p
  }

  ghost predicate Forgets(input: Input, p: PeerId) {
    input.FromSwarm? && input.event.MdnsExpired? && Mentions(input.event.lost, p)
  }

  lemma IntroducedStep(before: seq<Input>, input: Input, p: PeerId)
    ensures Introduced(before + [input], p) <==> Introduces(input, p) || (Introduced(before, p) && !Forgets(input, p))
  {
    hide Introduces, Forgets;
    var n := |before|;
    var inputs := before + [input];
    forall i | 0 <= i < n
      ensures inputs[i] == before[i] && inputs[i + 1..] == before[i + 1..] + [input]
    {
    }
    assert inputs[n] == input && inputs[n + 1..] == [];
    if Introduced(before, p) && !Forgets(input, p) {
      var i :| 0 <= i < n && Introduces(before[i], p) && forall later :: later in before[i + 1..] ==> !Forgets(later, p);
      assert Introduces(inputs[i], p);
    }
  }

  lemma KnownStep(lib: Library, s: State, input: Input, id: nat, closed: set<nat>, p: PeerId)
    ensures var after := AfterInput(lib, s, input, id, closed);
      p in after.native <==>
        || after.Addresses(p) != {}
        || Introduces(input, p)
        || (p in s.native && s.Addresses(p) == {} && !Forgets(input, p))
    ensures p in s.native && !Forgets(input, p) ==> p in AfterInput(lib, s, input, id, closed).native
  {
    hide Replies, AfterDial, Listing, IsListing, WithAddresses, WithoutAddresses, Pruned, Mentions;
    match input {
      case DialCommand(candidate, refusal) => DialLeavesViews(lib, s, Waiter(id, candidate), refusal);
      case FromSwarm(MdnsDiscovered(found)) =>
        DiscoveryAdds(s.native, found, p);
        MentionedAt(found, p);
      case FromSwarm(MdnsExpired(lost)) =>
        ExpiryRemoves(s.native, lost, p);
        MentionedAt(lost, p);
      case _ =>
    }
  }

  lemma MentionedAt(pairs: seq<(PeerId, Multiaddr)>, p: PeerId)
    ensures Mentions(pairs, p) <==> exists a :: (p, a) in pairs
  {
    if i :| 0 <= i < |pairs| && pairs[i].0 == p {
      assert (p, pairs[i].1) in pairs;
    }
  }

  /** A native peer is known exactly while it has an address, or identify has introduced it and no
      expiry has named it since. */
  lemma NativePeersFollowInputs(lib: Library, configured: seq<(PeerId, Multiaddr)>, inputs: seq<Input>, p: PeerId)
    ensures p in Run(lib, configured, inputs).host.native
       <==> (exists a :: Stands(lib, configured, inputs, Reachable(p, a))) || Introduced(inputs, p)
  {
    hide Run, Stands, Introduced;
    NativePeersByAddress(lib, configured, inputs, p);
    var s := Run(lib, configured, inputs).host;
    forall a
      ensures a in s.Addresses(p) <==> Stands(lib, configured, inputs, Reachable(p, a))
    {
      ViewsFollowInputs(lib, configured, inputs, Reachable(p, a));
    }
    if s.Addresses(p) != {} {
      var a :| a in s.Addresses(p);
    }
  }

  lemma {:induction false} NativePeersByAddress(lib: Library, configured: seq<(PeerId, Multiaddr)>, inputs: seq<Input>, p: PeerId)
    ensures var s := Run(lib, configured, inputs).host;
      p in s.native <==> s.Addresses(p) != {} || Introduced(inputs, p)
  {
    hide AfterInput, WithAddresses, Introduces, Forgets;
    if inputs == [] {
      DiscoveryAdds(map[], configured, p);
      MentionedAt(configured, p);
    } else {
      var n := |inputs| - 1;
      var w := Run(lib, configured, inputs[..n]);
      NativePeersByAddress(lib, configured, inputs[..n], p);
      KnownStep(lib, w.host, inputs[n], |w.sent|, w.closed, p);
      IntroducedStep(inputs[..n], inputs[n], p);
      assert inputs == inputs[..n] + [inputs[n]];
    }
  }

  // ----- Answers -----

  /** Every answer is the one its request deserves: connected exactly when the snapshot of that
      moment lists the peer, and otherwise refused for the first defect of the request, or because
      a dial that could be tried failed. */
  ghost predicate TruthInv(lib: Library, s: State) {
    forall r :: r in s.replies ==> Explained(lib, r)
  }

  ghost predicate Explained(lib: Library, r: Reply) {
    var c, peer := r.waiter.peer, lib.peerOf(r.waiter.peer.peerId);
    match r.result
    case Dialed => c.recordType == 2 && peer.Some? && peer.value in r.snapshot.connectedPeers
    case Refused(UnsupportedRecordType(recordType)) => c.recordType == recordType && recordType != 2
    case Refused(InvalidPeerId) => c.recordType == 2 && peer.None?
    case Refused(NoDialableEndpoint) =>
      c.recordType == 2 && peer.Some? && peer.value !in r.snapshot.connectedPeers && forall t :: t in c.endpoints ==> lib.addressOf(t).None?
    case Refused(DialFailed(_)) => peer.Some? && peer.value !in r.snapshot.connectedPeers && Dialable(lib, c, peer.value)
  }

  ghost predicate Dialable(lib: Library, c: Candidate, p: PeerId) {
    c.recordType == 2 && lib.peerOf(c.peerId) == Some(p) && exists t :: t in c.endpoints && lib.addressOf(t).Some?
  }

  ghost predicate UnderOwnPeer(lib: Library, s: State) {
    forall p, w :: p in s.pending && w in s.pending[p] ==> Dialable(lib, w.peer, p)
  }

  /** Whoever waits has been dialed at every address its candidate names. */
  ghost predicate AttemptedInv(lib: Library, s: State) {
    forall p, w :: p in s.pending && w in s.pending[p] ==> Attempt(p, Parsed(lib.addressOf, w.peer.endpoints)) in s.attempts
  }

  lemma AnswersStayTrue(lib: Library, s: State, waiters: seq<Waiter>, result: DialResult)
    requires TruthInv(lib, s)
    requires forall w :: w in waiters ==> Explained(lib, Reply(w, result, s.status))
    ensures TruthInv(lib, s.Answer(waiters, result))
  {
    hide Explained;
    var added := Replies(waiters, result, s.status);
    forall r | r in added
      ensures Explained(lib, r)
    {
      var i :| 0 <= i < |added| && added[i] == r;
      assert waiters[i] in waiters;
    }
  }

  /** Every dial is answered at once, or waits under its own unconnected peer. */
  lemma DialOutcome(lib: Library, s: State, w: Waiter, refusal: Option<string>) returns (attempts: seq<Attempt>, result: Option<DialResult>)
    ensures s.attempts <= attempts
    ensures match result
      case Some(answer) =>
        && AfterDial(lib, s, w, refusal) == s.(attempts := attempts).Answer([w], answer)
        && (SnapshotInv(s) ==> Explained(lib, Reply(w, answer, s.status)))
        && (answer.Refused? && answer.error.DialFailed? ==> refusal == Some(answer.error.message))
      case None =>
        && lib.peerOf(w.peer.peerId).Some?
        && var p := lib.peerOf(w.peer.peerId).value;
           && AfterDial(lib, s, w, refusal) == s.(attempts := attempts, pending := s.pending[p := s.Waiting(p) + [w]])
           && attempts == s.attempts + [Attempt(p, Parsed(lib.addressOf, w.peer.endpoints))]
           && Dialable(lib, w.peer, p) && refusal.None?
  {
    hide Replies, Parsed, Listing, IsListing;
    ListingIsSorted(s.connected, Listing(s.connected));
    SomeEndpointParses(lib.addressOf, w.peer.endpoints);
    if w.peer.recordType != RECORD_TYPE_LIBP2P {
      return s.attempts, Some(Refused(UnsupportedRecordType(w.peer.recordType)));
    }
    if lib.peerOf(w.peer.peerId).None? {
      return s.attempts, Some(Refused(InvalidPeerId));
    }
    var peer := lib.peerOf(w.peer.peerId).value;
    if peer in s.connected {
      return s.attempts, Some(Dialed);
    }
    var addresses := Parsed(lib.addressOf, w.peer.endpoints);
    if addresses == [] {
      return s.attempts, Some(Refused(NoDialableEndpoint));
    }
    attempts := s.attempts + [Attempt(peer, addresses)];
    result := if refusal.Some? then Some(Refused(DialFailed(refusal.value))) else None;
  }

  lemma DialKeepsTruth(lib: Library, s: State, w: Waiter, refusal: Option<string>)
    requires TruthInv(lib, s) && UnderOwnPeer(lib, s) && AttemptedInv(lib, s) && SnapshotInv(s)
    ensures var after := AfterDial(lib, s, w, refusal); TruthInv(lib, after) && UnderOwnPeer(lib, after) && AttemptedInv(lib, after)
  {
    hide Explained, Dialable, SnapshotInv, AfterDial, Replies, Parsed;
    var attempts, result := DialOutcome(lib, s, w, refusal);
    if result.Some? {
      AnswersStayTrue(lib, s.(attempts := attempts), [w], result.value);
    }
  }

  lemma WakeKeepsTruth(lib: Library, s: State, peer: PeerId, result: DialResult)
    requires TruthInv(lib, s) && UnderOwnPeer(lib, s) && AttemptedInv(lib, s) && SnapshotInv(s)
    requires peer in s.pending ==> if peer in s.connected then result.Dialed? else result.Refused? && result.error.DialFailed?
    ensures var after := AfterWake(s, peer, result); TruthInv(lib, after) && UnderOwnPeer(lib, after) && AttemptedInv(lib, after)
  {
    hide Explained, Listing, IsListing, Replies, Parsed;
    if peer in s.pending {
      forall w | w in s.pending[peer]
        ensures Explained(lib, Reply(w, result, s.status))
      {
        WakeIsExplained(lib, s, peer, w, result);
      }
      AnswersStayTrue(lib, s.(pending := s.pending - {peer}), s.pending[peer], result);
    }
  }

  lemma WakeIsExplained(lib: Library, s: State, peer: PeerId, w: Waiter, result: DialResult)
    requires Dialable(lib, w.peer, peer) && SnapshotInv(s)
    requires if peer in s.connected then result.Dialed? else result.Refused? && result.error.DialFailed?
    ensures Explained(lib, Reply(w, result, s.status))
  {
    hide Listing, IsListing;
    ListingIsSorted(s.connected, Listing(s.connected));
  }

  lemma InputKeepsTruth(lib: Library, s: State, input: Input, id: nat, closed: set<nat>)
    requires TruthInv(lib, s) && UnderOwnPeer(lib, s) && AttemptedInv(lib, s) && SnapshotInv(s) && PendingInv(s)
    ensures var after := AfterInput(lib, s, input, id, closed);
      TruthInv(lib, after) && UnderOwnPeer(lib, after) && AttemptedInv(lib, after)
  {
    hide Explained, Dialable, Listing, IsListing, Replies, AfterDial, AfterWake, WithAddresses, WithoutAddresses, Parsed;
    match input {
      case DialCommand(candidate, refusal) => DialKeepsTruth(lib, s, Waiter(id, candidate), refusal);
      case FromSwarm(event) =>
        match event {
          case ConnectionEstablished(peer) =>
            var t := s.(connected := s.connected + {peer}).Publish();
            WakeKeepsTruth(lib, t, peer, Dialed);
          case OutgoingConnectionError(failed, message) =>
            if failed.Some? {
              WakeKeepsTruth(lib, s, failed.value, Refused(DialFailed(message)));
            }
          case _ =>
        }
      case _ =>
    }
  }

  // ----- Every request is settled once -----

  function Waiters(replies: seq<Reply>): (r: seq<Waiter>)
    ensures |r| == |replies|
  {
    seq(|replies|, i requires 0 <= i < |replies| => replies[i].waiter)
  }

  function TimesAnswered(s: State, w: Waiter): nat {
    multiset(Waiters(s.replies))[w]
  }

  /** How often a request waits under its own peer id. */
  function TimesWaiting(lib: Library, s: State, w: Waiter): nat {
    match lib.peerOf(w.peer.peerId)
    case Some(p) => multiset(s.Waiting(p))[w]
    case None => 0
  }

  function Settled(lib: Library, s: State, w: Waiter): nat {
    TimesAnswered(s, w) + TimesWaiting(lib, s, w)
  }

  /** Each request is answered once or waits once; only one whose receiver is gone may be neither. */
  ghost predicate RequestInv(lib: Library, w: World) {
    && (forall i :: 0 <= i < |w.sent| ==> w.sent[i].id == i)
    && forall r :: SettledAsSent(lib, w, r)
  }

  ghost predicate SettledAsSent(lib: Library, w: World, r: Waiter) {
    && (r in w.sent ==> Settled(lib, w.host, r) == 1 || (Settled(lib, w.host, r) == 0 && r.id in w.closed))
    && (r !in w.sent ==> Settled(lib, w.host, r) == 0)
  }

  lemma AnswerCounts(s: State, waiters: seq<Waiter>, result: DialResult, w: Waiter)
    ensures TimesAnswered(s.Answer(waiters, result), w) == TimesAnswered(s, w) + multiset(waiters)[w]
  {
    assert Waiters(s.Answer(waiters, result).replies) == Waiters(s.replies) + waiters;
  }

  lemma DialSettles(lib: Library, s: State, w: Waiter, refusal: Option<string>, r: Waiter)
    ensures Settled(lib, AfterDial(lib, s, w, refusal), r) == Settled(lib, s, r) + if r == w then 1 else 0
  {
    hide Replies, Waiters, AfterDial;
    var attempts, result := DialOutcome(lib, s, w, refusal);
    if result.Some? {
      AnswerCounts(s.(attempts := attempts), [w], result.value, r);
    }
  }

  lemma WakeSettles(lib: Library, s: State, peer: PeerId, result: DialResult, r: Waiter)
    requires UnderOwnPeer(lib, s)
    ensures Settled(lib, AfterWake(s, peer, result), r) == Settled(lib, s, r)
  {
    hide Replies, Waiters;
    if peer in s.pending {
      AnswerCounts(s.(pending := s.pending - {peer}), s.pending[peer], result, r);
    }
  }

  lemma {:induction false} OpenCounts(waiters: seq<Waiter>, closed: set<nat>, w: Waiter)
    ensures multiset(Open(waiters, closed))[w] == if w.id in closed then 0 else multiset(waiters)[w]
  {
    if waiters != [] {
      var n := |waiters| - 1;
      OpenCounts(waiters[..n], closed, w);
      assert waiters == waiters[..n] + [waiters[n]];
    }
  }

  /** Pruning removes exactly the closed waiters, and every list it empties. */
  lemma PruneIsExact(pending: map<PeerId, seq<Waiter>>, closed: set<nat>, p: PeerId, w: Waiter)
    requires p in pending
    ensures var after := Pruned(pending, closed);
      && (p in after <==> exists v :: v in pending[p] && v.id !in closed)
      && (p in after ==> after[p] != [] && multiset(after[p])[w] == if w.id in closed then 0 else multiset(pending[p])[w])
    ensures Pruned(pending, closed).Keys <= pending.Keys
  {
    OpenCounts(pending[p], closed, w);
    var open := Open(pending[p], closed);
    if open != [] {
      assert open[0] in open;
    }
  }

  lemma PruneSettles(lib: Library, s: State, closed: set<nat>, r: Waiter)
    ensures Settled(lib, s.(pending := Pruned(s.pending, closed)), r)
         == TimesAnswered(s, r) + if r.id in closed then 0 else TimesWaiting(lib, s, r)
  {
    match lib.peerOf(r.peer.peerId) {
      case Some(p) =>
        if p in s.pending {
          OpenCounts(s.pending[p], closed, r);
        }
      case None =>
    }
  }

  lemma InputSettles(lib: Library, w: World, input: Input, r: Waiter)
    requires SettledAsSent(lib, w, r) && UnderOwnPeer(lib, w.host)
    requires forall i :: 0 <= i < |w.sent| ==> w.sent[i].id == i
    ensures SettledAsSent(lib, Next(lib, w, input), r)
  {
    hide AfterDial, AfterWake, Pruned, Listing, WithAddresses, WithoutAddresses, Waiters, UnderOwnPeer;
    match input {
      case DialCommand(candidate, refusal) => DialSettles(lib, w.host, Waiter(|w.sent|, candidate), refusal, r);
      case PruneCommand => PruneSettles(lib, w.host, w.closed, r);
      case FromSwarm(event) => SwarmEventSettles(lib, w.host, event, r);
      case _ =>
    }
  }

  lemma SwarmEventSettles(lib: Library, s: State, event: SwarmEvent, r: Waiter)
    requires UnderOwnPeer(lib, s)
    ensures Settled(lib, AfterSwarmEvent(s, event), r) == Settled(lib, s, r)
  {
    hide AfterWake, Listing, WithAddresses, WithoutAddresses, Waiters;
    match event {
      case ConnectionEstablished(peer) => WakeSettles(lib, s.(connected := s.connected + {peer}).Publish(), peer, Dialed, r);
      case OutgoingConnectionError(failed, message) =>
        if failed.Some? {
          WakeSettles(lib, s, failed.value, Refused(DialFailed(message)), r);
        }
      case _ =>
    }
  }

  // ----- Main result -----

  ghost predicate Safe(lib: Library, configured: seq<(PeerId, Multiaddr)>, w: World) {
    && PendingInv(w.host)
    && SnapshotInv(w.host)
    && NativeInv(configured, w.host, w.published)
    && TruthInv(lib, w.host)
    && UnderOwnPeer(lib, w.host)
    && AttemptedInv(lib, w.host)
    && RequestInv(lib, w)
  }

  lemma StartIsSafe(lib: Library, configured: seq<(PeerId, Multiaddr)>)
    ensures Safe(lib, configured, World(Initial(configured), [], {}, false))
  {
    hide WithAddresses;
    ListingIsUnique({}, [], Listing({}));
  }

  lemma NextKeepsRequests(lib: Library, w: World, input: Input)
    requires RequestInv(lib, w) && UnderOwnPeer(lib, w.host)
    ensures RequestInv(lib, Next(lib, w, input))
  {
    hide AfterInput, SettledAsSent, UnderOwnPeer;
    forall r
      ensures SettledAsSent(lib, Next(lib, w, input), r)
    {
      InputSettles(lib, w, input, r);
    }
  }

  /** Over every interleaving of commands, swarm events, timeouts and prunes. */
  lemma {:induction false} EveryRunIsSafe(lib: Library, configured: seq<(PeerId, Multiaddr)>, inputs: seq<Input>)
    ensures Safe(lib, configured, Run(lib, configured, inputs))
  {
    hide PendingInv, SnapshotInv, NativeInv, TruthInv, UnderOwnPeer, AttemptedInv, RequestInv, AfterInput, Publishes, Initial;
    if inputs == [] {
      StartIsSafe(lib, configured);
    } else {
      var n := |inputs| - 1;
      EveryRunIsSafe(lib, configured, inputs[..n]);
      var w := Run(lib, configured, inputs[..n]);
      InputKeepsPending(lib, w.host, inputs[n], |w.sent|, w.closed);
      InputKeepsSnapshot(lib, w.host, inputs[n], |w.sent|, w.closed);
      InputKeepsNative(lib, configured, w.host, inputs[n], |w.sent|, w.closed, w.published);
      InputKeepsTruth(lib, w.host, inputs[n], |w.sent|, w.closed);
      NextKeepsRequests(lib, w, inputs[n]);
    }
  }

  // ----- What keeps a request waiting, and what fails it -----

  /** The events that end the wait of every request for a peer. */
  predicate Settles(input: Input, p: PeerId) {
    && input.FromSwarm?
    && match input.event
       case ConnectionEstablished(peer) => peer == p
       case OutgoingConnectionError(failed, _) => failed == Some(p)
       case _ => false
  }

  /** A dial of the candidate was started, and nothing has settled its peer since. */
  ghost predicate AwaitsOutcome(inputs: seq<Input>, c: Candidate, p: PeerId) {
    exists i :: 0 <= i < |inputs| && inputs[i] == DialCommand(c, None) && forall input :: input in inputs[i + 1..] ==> !Settles(input, p)
  }

  /** The swarm refused a dial of the candidate, or reported its peer unreachable, in these words. */
  ghost predicate FailedAs(lib: Library, inputs: seq<Input>, c: Candidate, message: string) {
    || DialCommand(c, Some(message)) in inputs
    || exists p :: lib.peerOf(c.peerId) == Some(p) && FromSwarm(OutgoingConnectionError(Some(p), message)) in inputs
  }

  ghost predicate CauseInv(lib: Library, inputs: seq<Input>, s: State) {
    && (forall p, w :: p in s.pending && w in s.pending[p] ==> AwaitsOutcome(inputs, w.peer, p))
    && forall r :: r in s.replies ==> HasCause(lib, inputs, r)
  }

  ghost predicate HasCause(lib: Library, inputs: seq<Input>, r: Reply) {
    r.result.Refused? && r.result.error.DialFailed? ==> FailedAs(lib, inputs, r.waiter.peer, r.result.error.message)
  }

  lemma AwaitsStep(before: seq<Input>, input: Input, c: Candidate, p: PeerId)
    ensures AwaitsOutcome(before + [input], c, p) <==> input == DialCommand(c, None) || (AwaitsOutcome(before, c, p) && !Settles(input, p))
  {
    hide Settles;
    var n := |before|;
    var inputs := before + [input];
    forall i | 0 <= i < n
      ensures inputs[i] == before[i] && inputs[i + 1..] == before[i + 1..] + [input]
    {
    }
    assert inputs[n] == input && inputs[n + 1..] == [];
    if AwaitsOutcome(before, c, p) && !Settles(input, p) {
      var i :| 0 <= i < n && before[i] == DialCommand(c, None) && forall later :: later in before[i + 1..] ==> !Settles(later, p);
      assert inputs[i] == DialCommand(c, None);
    }
  }

  lemma CausesStay(lib: Library, before: seq<Input>, input: Input, s: State)
    requires CauseInv(lib, before, s)
    ensures forall r :: r in s.replies ==> HasCause(lib, before + [input], r)
    ensures forall p, w :: p in s.pending && w in s.pending[p] && !Settles(input, p) ==> AwaitsOutcome(before + [input], w.peer, p)
  {
    hide AwaitsOutcome, Settles;
    assert input in before + [input];
    forall p, w | p in s.pending && w in s.pending[p] && !Settles(input, p)
      ensures AwaitsOutcome(before + [input], w.peer, p)
    {
      AwaitsStep(before, input, w.peer, p);
    }
  }

  lemma AnswersHaveCauses(lib: Library, inputs: seq<Input>, s: State, waiters: seq<Waiter>, result: DialResult)
    requires forall r :: r in s.replies ==> HasCause(lib, inputs, r)
    requires forall w :: w in waiters ==> HasCause(lib, inputs, Reply(w, result, s.status))
    ensures forall r :: r in s.Answer(waiters, result).replies ==> HasCause(lib, inputs, r)
  {
    hide HasCause;
    var added := Replies(waiters, result, s.status);
    forall r | r in added
      ensures HasCause(lib, inputs, r)
    {
      var i :| 0 <= i < |added| && added[i] == r;
      assert waiters[i] in waiters;
    }
  }

  lemma ReportedFailure(lib: Library, inputs: seq<Input>, c: Candidate, p: PeerId, message: string)
    requires Dialable(lib, c, p) && FromSwarm(OutgoingConnectionError(Some(p), message)) in inputs
    ensures FailedAs(lib, inputs, c, message)
  {
  }

  lemma InputKeepsCauses(lib: Library, before: seq<Input>, s: State, input: Input, id: nat, closed: set<nat>)
    requires CauseInv(lib, before, s) && UnderOwnPeer(lib, s)
    ensures CauseInv(lib, before + [input], AfterInput(lib, s, input, id, closed))
  {
    hide HasCause, AwaitsOutcome, Dialable, AfterDial, AfterSwarmEvent, Listing, IsListing, Open;
    match input {
      case DialCommand(candidate, refusal) => DialHasCause(lib, before, s, input, id);
      case FromSwarm(event) => EventHasCause(lib, before, s, event);
      case _ => CausesStay(lib, before, input, s);
    }
  }

  lemma EventHasCause(lib: Library, before: seq<Input>, s: State, event: SwarmEvent)
    requires CauseInv(lib, before, s) && UnderOwnPeer(lib, s)
    ensures CauseInv(lib, before + [FromSwarm(event)], AfterSwarmEvent(s, event))
  {
    hide HasCause, AwaitsOutcome, Dialable, AfterWake, AfterSwarmEvent, Listing, IsListing, UnderOwnPeer;
    var inputs := before + [FromSwarm(event)];
    CausesStay(lib, before, FromSwarm(event), s);
    if event.ConnectionEstablished? {
      EstablishmentHasCause(lib, inputs, s, event.peer);
    } else if event.OutgoingConnectionError? && event.failed.Some? {
      FailureHasCause(lib, inputs, s, event.failed.value, event.message);
    } else {
      OthersSettleNothing(s, event);
    }
  }

  lemma OthersSettleNothing(s: State, event: SwarmEvent)
    requires !event.ConnectionEstablished? && !(event.OutgoingConnectionError? && event.failed.Some?)
    ensures var after := AfterSwarmEvent(s, event); after.replies == s.replies && after.pending == s.pending
    ensures forall p :: !Settles(FromSwarm(event), p)
  {
    hide Listing, IsListing, WithAddresses, WithoutAddresses;
  }

  lemma EstablishmentHasCause(lib: Library, inputs: seq<Input>, s: State, peer: PeerId)
    requires forall r :: r in s.replies ==> HasCause(lib, inputs, r)
    requires forall p, w :: p in s.pending && w in s.pending[p] && p != peer ==> AwaitsOutcome(inputs, w.peer, p)
    ensures CauseInv(lib, inputs, AfterSwarmEvent(s, ConnectionEstablished(peer)))
  {
    hide AwaitsOutcome, AfterWake, Listing, IsListing;
    WakeHasCause(lib, inputs, s.(connected := s.connected + {peer}).Publish(), peer, Dialed);
  }

  lemma FailureHasCause(lib: Library, inputs: seq<Input>, s: State, peer: PeerId, message: string)
    requires UnderOwnPeer(lib, s) && FromSwarm(OutgoingConnectionError(Some(peer), message)) in inputs
    requires forall r :: r in s.replies ==> HasCause(lib, inputs, r)
    requires forall p, w :: p in s.pending && w in s.pending[p] && p != peer ==> AwaitsOutcome(inputs, w.peer, p)
    ensures CauseInv(lib, inputs, AfterSwarmEvent(s, OutgoingConnectionError(Some(peer), message)))
  {
    hide AwaitsOutcome, Dialable, FailedAs, AfterWake;
    forall w | peer in s.pending && w in s.pending[peer]
      ensures FailedAs(lib, inputs, w.peer, message)
    {
      ReportedFailure(lib, inputs, w.peer, peer, message);
    }
    WakeHasCause(lib, inputs, s, peer, Refused(DialFailed(message)));
  }

  lemma DialHasCause(lib: Library, before: seq<Input>, s: State, input: Input, id: nat)
    requires CauseInv(lib, before, s) && input.DialCommand?
    ensures CauseInv(lib, before + [input], AfterDial(lib, s, Waiter(id, input.candidate), input.refusal))
  {
    hide AfterDial, Replies, AwaitsOutcome;
    var inputs := before + [input];
    var w := Waiter(id, input.candidate);
    CausesStay(lib, before, input, s);
    var attempts, result := DialOutcome(lib, s, w, input.refusal);
    assert input in inputs;
    if result.Some? {
      AnswersHaveCauses(lib, inputs, s.(attempts := attempts), [w], result.value);
    } else {
      AwaitsStep(before, input, input.candidate, lib.peerOf(input.candidate.peerId).value);
    }
  }

  lemma WakeHasCause(lib: Library, inputs: seq<Input>, s: State, peer: PeerId, result: DialResult)
    requires forall r :: r in s.replies ==> HasCause(lib, inputs, r)
    requires forall p, w :: p in s.pending && w in s.pending[p] && p != peer ==> AwaitsOutcome(inputs, w.peer, p)
    requires forall w :: peer in s.pending && w in s.pending[peer] ==> HasCause(lib, inputs, Reply(w, result, s.status))
    ensures CauseInv(lib, inputs, AfterWake(s, peer, result))
  {
    hide HasCause, AwaitsOutcome, Replies;
    if peer in s.pending {
      AnswersHaveCauses(lib, inputs, s.(pending := s.pending - {peer}), s.pending[peer], result);
    }
  }

  lemma StartHasCauses(lib: Library, configured: seq<(PeerId, Multiaddr)>)
    ensures CauseInv(lib, [], Initial(configured))
  {
    hide WithAddresses;
  }

  /** A request waits only while nothing has settled its peer since its dial was started, and fails
      as a dial only in the words of the swarm's refusal or of its report on that peer. */
  lemma {:induction false} AnswersFollowInputs(lib: Library, configured: seq<(PeerId, Multiaddr)>, inputs: seq<Input>)
    ensures CauseInv(lib, inputs, Run(lib, configured, inputs).host)
  {
    hide CauseInv, AfterInput, Initial, UnderOwnPeer, Publishes, PendingInv, SnapshotInv, NativeInv, TruthInv, AttemptedInv, RequestInv;
    if inputs == [] {
      StartHasCauses(lib, configured);
    } else {
      var n := |inputs| - 1;
      var w := Run(lib, configured, inputs[..n]);
      AnswersFollowInputs(lib, configured, inputs[..n]);
      EveryRunIsSafe(lib, configured, inputs[..n]);
      InputKeepsCauses(lib, inputs[..n], w.host, inputs[n], |w.sent|, w.closed);
      assert inputs == inputs[..n] + [inputs[n]];
    }
  }

  /** Before the first publication the snapshot's native count is right exactly when no native
      peer was configured. */
  lemma UnpublishedNativeCount(lib: Library, configured: seq<(PeerId, Multiaddr)>, inputs: seq<Input>)
    requires !Run(lib, configured, inputs).published
    ensures var s := Run(lib, configured, inputs).host;
      s.status.nativePeers == |s.native| <==> configured == []
  {
    hide Run;
    EveryRunIsSafe(lib, configured, inputs);
    if configured != [] {
      var n := |configured| - 1;
      DiscoveryAdds(map[], configured, configured[n].0);
      assert WithAddresses(map[], configured) != map[];
    }
  }
}
