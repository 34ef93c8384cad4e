/** Any number of devices, each with sessions of its own, over a network that may reorder, lose and duplicate. */
module World {
  import opened Wrappers
  import opened Crypto
  import opened Ratchet
  import opened KeyBundle
  import opened Sessions
  import opened Session
  import opened HonestSession

  /** Who owns each device; the bundle for another device that a device makes its session from, and the private keys it
      has then. */
  datatype Fleet = Fleet(
    owner: DeviceId -> string, offer: (DeviceId, DeviceId) -> Offer, store: (DeviceId, DeviceId) -> KeyStore)

  /** What each device has in memory; by (from, to), what was issued; by (to, from), what was delivered. */
  datatype World = World(
    sessions: DeviceId -> Sessions,
    sent: (DeviceId, DeviceId) -> seq<Issue>, got: (DeviceId, DeviceId) -> seq<Delivery>)

  datatype Act =
    | Meet(device: DeviceId, user: string, offers: seq<Offer>, store: KeyStore, post: bool)
    | Broadcast(from: DeviceId, user: string)
    | Arrive(to: DeviceId, peer: DeviceId, message: nat, drawn: nat)

  // ---- Steps ----

  /** create_ratchets_if_needed, for fetched bundles or for a handshake of the backlog. */
  function MeetStep(w: World, x: DeviceId, user: string, offers: seq<Offer>, store: KeyStore, post: bool): World {
    var m := w.sessions(x);
    var made := m[user := CreateAll(Of(m, user), offers, store, post).ratchets];
    w.(sessions := d => if d == x then made else w.sessions(d))
  }

  function Issued(w: World, from: DeviceId, user: string, to: DeviceId): seq<Issue> {
    var keys := SentKeys(w.sessions(from), user, from);
    if to in keys then [Issue(keys[to].0, keys[to].1)] else []
  }

  function BroadcastStep(w: World, from: DeviceId, user: string): World {
    w.(sessions := d => if d == from then SendAll(w.sessions(from), user) else w.sessions(d),
       sent := (x, y) => if x == from then w.sent(x, y) + Issued(w, from, user, y) else w.sent(x, y))
  }

  function ArriveStep(f: Fleet, w: World, to: DeviceId, peer: DeviceId, message: nat, drawn: nat): World {
    if |w.sent(peer, to)| <= message then w
    else
      var (m, reply) := ReceiveFrom(w.sessions(to), f.owner(peer), w.sent(peer, to)[message].header, drawn);
      w.(sessions := d => if d == to then m else w.sessions(d),
         got := (x, y) => if x == to && y == peer && reply.Reply? then w.got(x, y) + [Delivery(message, reply.outcome)]
                          else w.got(x, y))
  }

  function Perform(f: Fleet, w: World, e: Act): World {
    match e
    case Meet(x, user, offers, store, post) => MeetStep(w, x, user, offers, store, post)
    case Broadcast(from, user) => BroadcastStep(w, from, user)
    case Arrive(to, peer, k, drawn) => ArriveStep(f, w, to, peer, k, drawn)
  }

  function Acts(f: Fleet, w: World, es: seq<Act>): World {
    if es == [] then w else Perform(f, Acts(f, w, es[..|es| - 1]), es[|es| - 1])
  }

  function Start(): World {
    World(_ => map[], (_, _) => [], (_, _) => [])
  }

  // ---- Bundles ----

  /** What x builds for y. */
  function Built(f: Fleet, x: DeviceId, y: DeviceId): Result<State, Error> {
    CreateRatchet(f.offer(x, y).bundle, f.store(x, y), f.offer(x, y).unset)
  }

  /** The server gives out bundles for devices of the user they were asked for, and the fleet tells from which one each
      session is made: the first that creation gets to while there is none. */
  ghost predicate Genuine(f: Fleet, w: World, e: Act) {
    e.Meet? ==>
      forall i | 0 <= i < |e.offers| :: GenuineOffer(f, Of(w.sessions(e.device), e.user), e, i)
  }

  ghost predicate GenuineOffer(f: Fleet, known: Ratchets, e: Act, i: nat)
    requires e.Meet? && i < |e.offers|
  {
    var d := e.offers[i].bundle.theirDevicePublic;
    && f.owner(d) == e.user
    && (d !in known && FirstOffer(e.offers, i) && Reached(known, e.offers, e.store, i) ==>
          e.offers[i] == f.offer(e.device, d) && e.store == f.store(e.device, d))
  }

  ghost predicate AllGenuine(f: Fleet, es: seq<Act>) {
    forall i | 0 <= i < |es| :: Genuine(f, Acts(f, Start(), es[..i]), es[i])
  }

  /** The two bundles are the two ends of one handshake, whichever device began it. */
  ghost predicate Shaken(f: Fleet, x: DeviceId, y: DeviceId) {
    exists h :: Handshaken(f, x, y, h) || Handshaken(f, y, x, h)
  }

  ghost predicate Handshaken(f: Fleet, x: DeviceId, y: DeviceId, h: Handshake) {
    InitiatorSide(h, f.offer(x, y).bundle, f.store(x, y)) && ResponderSide(h, f.offer(y, x).bundle, f.store(y, x))
  }

  lemma ShakenMatches(f: Fleet, x: DeviceId, y: DeviceId)
    requires Shaken(f, x, y)
    ensures Built(f, x, y).Success? && Built(f, y, x).Success?
    ensures Matched(Built(f, x, y).value, Built(f, y, x).value)
  {
    hide Handshaken, Built, Matched;
    var h :| Handshaken(f, x, y, h) || Handshaken(f, y, x, h);
    if Handshaken(f, x, y, h) {
      HandshakenMatches(f, x, y, h);
    } else {
      HandshakenMatches(f, y, x, h);
    }
  }

  lemma HandshakenMatches(f: Fleet, x: DeviceId, y: DeviceId, h: Handshake)
    requires Handshaken(f, x, y, h)
    ensures Built(f, x, y).Success? && Built(f, y, x).Success?
    ensures Matched(Built(f, x, y).value, Built(f, y, x).value)
    ensures Matched(Built(f, y, x).value, Built(f, x, y).value)
  {
    hide CreateRatchet, InitiatorSide, ResponderSide, Matched;
    var a, b := f.offer(x, y), f.offer(y, x);
    MirroredHandshake(h, a.bundle, f.store(x, y), b.bundle, f.store(y, x), a.unset, b.unset);
    MatchedEitherWay(Built(f, x, y).value, Built(f, y, x).value);
  }

  lemma MatchedEitherWay(a: State, b: State)
    requires Matched(a, b)
    ensures Matched(b, a)
  {
    hide WithInitialChains, OwnsKeypair;
  }

  // ---- One device pair of the world ----

  /** No device is known under a user that does not own it, and every header names the device that issued it. */
  ghost predicate Consistent(f: Fleet, w: World) {
    && (forall x, u, d | Has(w.sessions(x), u, d) :: u == f.owner(d))
    && (forall x, y, k | 0 <= k < |w.sent(x, y)| :: w.sent(x, y)[k].header.deviceId == x)
  }

  /** p is x's end of its session with y: with the ratchet x has for y, or the one it will build. */
  ghost predicate Shows(f: Fleet, w: World, x: DeviceId, y: DeviceId, p: Party) {
    && p.device == x && p.issued == w.sent(x, y) && p.deliveries == w.got(x, y)
    && if Has(w.sessions(x), f.owner(y), y) then p.ratchet == w.sessions(x)[f.owner(y)][y]
       else Built(f, x, y) == Success(p.ratchet)
  }

  ghost predicate ShowsPair(f: Fleet, w: World, x: DeviceId, y: DeviceId, p: Pair) {
    Shows(f, w, x, y, p.a) && Shows(f, w, y, x, p.b)
  }

  /** What an act is to the session of x and y. */
  function Projected(f: Fleet, w: World, e: Act, x: DeviceId, y: DeviceId): seq<Event> {
    match e
    case Meet(_, _, _, _, _) => []
    case Broadcast(from, user) =>
      if from == x && Has(w.sessions(x), user, y) then [Send(A)]
      else if from == y && Has(w.sessions(y), user, x) then [Send(B)]
      else []
    case Arrive(to, peer, k, drawn) =>
      if to == x && peer == y && Has(w.sessions(x), f.owner(y), y) then [Event.Deliver(A, k, drawn)]
      else if to == y && peer == x && Has(w.sessions(y), f.owner(x), x) then [Event.Deliver(B, k, drawn)]
      else []
  }

  function ProjectedAll(f: Fleet, w: World, es: seq<Act>, x: DeviceId, y: DeviceId): seq<Event> {
    if es == [] then []
    else
      ProjectedAll(f, w, es[..|es| - 1], x, y) + Projected(f, Acts(f, w, es[..|es| - 1]), es[|es| - 1], x, y)
  }

  lemma SendAllAt(m: Sessions, user: string, u: string, d: DeviceId)
    ensures Has(SendAll(m, user), u, d) <==> Has(m, u, d)
    ensures Has(m, u, d) ==> SendAll(m, user)[u][d] == if u == user then AfterSend(m[u][d]) else m[u][d]
  {
  }

  lemma IssuedAt(w: World, from: DeviceId, user: string, to: DeviceId)
    ensures Issued(w, from, user, to)
         == if Has(w.sessions(from), user, to) then
              var s := w.sessions(from)[user][to]; [Issue(SentKey(s), SentHeader(s).(deviceId := from))]
            else []
  {
  }

  lemma ReceiveAt(m: Sessions, user: string, h: Header, drawn: nat, u: string, d: DeviceId)
    ensures var (m', reply) := ReceiveFrom(m, user, h, drawn);
      && (Has(m', u, d) <==> Has(m, u, d))
      && (Has(m, u, d) && !(u == user && d == h.deviceId) ==> m'[u][d] == m[u][d])
      && (reply.Reply? <==> Has(m, user, h.deviceId))
      && (reply.Reply? ==>
            (m'[user][h.deviceId], reply.outcome) == AdvanceReceive(m[user][h.deviceId], h, drawn))
  {
    hide AdvanceReceive;
  }

  lemma ActKeepsConsistent(f: Fleet, w: World, e: Act)
    requires Consistent(f, w) && Genuine(f, w, e)
    ensures Consistent(f, Perform(f, w, e))
  {
    hide Perform, Genuine;
    var w' := Perform(f, w, e);
    forall x, u, d | Has(w'.sessions(x), u, d) ensures u == f.owner(d) {
      ActKeepsOwners(f, w, e, x, u, d);
    }
    forall x, y, k | 0 <= k < |w'.sent(x, y)| ensures w'.sent(x, y)[k].header.deviceId == x {
      ActKeepsSenders(f, w, e, x, y, k);
    }
  }

  lemma ActKeepsOwners(f: Fleet, w: World, e: Act, x: DeviceId, u: string, d: DeviceId)
    requires Consistent(f, w) && Genuine(f, w, e) && Has(Perform(f, w, e).sessions(x), u, d)
    ensures u == f.owner(d)
  {
    hide AfterSend, AdvanceReceive, CreateRatchet, CreateAll, Reached;
    match e {
      case Meet(a, user, offers, store, post) =>
        if x == a && u == user {
          MadeIsOwned(f, w, e, d);
        }
      case Broadcast(from, user) => SendAllAt(w.sessions(from), user, u, d);
      case Arrive(to, peer, k, drawn) =>
        if k < |w.sent(peer, to)| {
          ReceiveAt(w.sessions(to), f.owner(peer), w.sent(peer, to)[k].header, drawn, u, d);
        }
    }
    assert Has(w.sessions(x), u, d) || u == f.owner(d);
  }

  lemma ActKeepsSenders(f: Fleet, w: World, e: Act, x: DeviceId, y: DeviceId, k: nat)
    requires Consistent(f, w) && k < |Perform(f, w, e).sent(x, y)|
    ensures Perform(f, w, e).sent(x, y)[k].header.deviceId == x
  {
    hide AfterSend, SentKey, SentHeader, AdvanceReceive, CreateAll;
    match e {
      case Broadcast(from, user) =>
        IssuedAt(w, from, user, y);
        assert k < |w.sent(x, y)| ==> w.sent(x, y)[k].header.deviceId == x;
      case _ => assert w.sent(x, y)[k].header.deviceId == x;
    }
  }

  lemma MadeIsOwned(f: Fleet, w: World, e: Act, d: DeviceId)
    requires e.Meet? && Genuine(f, w, e)
    ensures d in CreateAll(Of(w.sessions(e.device), e.user), e.offers, e.store, e.post).ratchets ==>
      d in Of(w.sessions(e.device), e.user) || f.owner(d) == e.user
  {
    hide CreateAll, Reached;
    CreationIsMonotone(Of(w.sessions(e.device), e.user), e.offers, e.store, e.post);
    if Offered(e.offers, d) {
      var i :| 0 <= i < |e.offers| && e.offers[i].bundle.theirDevicePublic == d;
      assert GenuineOffer(f, Of(w.sessions(e.device), e.user), e, i);
    }
  }

  /** A ratchet that a meeting makes is the one the fleet says. */
  lemma MadeAsBuilt(f: Fleet, w: World, e: Act, d: DeviceId)
    requires e.Meet? && Genuine(f, w, e) && d !in Of(w.sessions(e.device), e.user)
    requires d in CreateAll(Of(w.sessions(e.device), e.user), e.offers, e.store, e.post).ratchets
    ensures f.owner(d) == e.user
    ensures Built(f, e.device, d)
         == Success(CreateAll(Of(w.sessions(e.device), e.user), e.offers, e.store, e.post).ratchets[d])
  {
    hide CreateAll, CreateRatchet, Reached;
    var known := Of(w.sessions(e.device), e.user);
    var i := CreatedFrom(known, e.offers, e.store, e.post, d);
    assert GenuineOffer(f, known, e, i);
  }

  lemma MeetKeepsShows(f: Fleet, w: World, e: Act, x: DeviceId, y: DeviceId, p: Party)
    requires e.Meet? && Genuine(f, w, e) && Shows(f, w, x, y, p)
    ensures Shows(f, Perform(f, w, e), x, y, p)
  {
    hide CreateAll, CreateRatchet, Genuine;
    if x == e.device && e.user == f.owner(y) {
      var known := Of(w.sessions(x), e.user);
      CreationIsMonotone(known, e.offers, e.store, e.post);
      if y !in known && y in CreateAll(known, e.offers, e.store, e.post).ratchets {
        MadeAsBuilt(f, w, e, y);
      }
    }
  }

  lemma BroadcastKeepsShows(f: Fleet, w: World, from: DeviceId, user: string, x: DeviceId, y: DeviceId, p: Party)
    requires Consistent(f, w) && Shows(f, w, x, y, p)
    ensures Shows(f, BroadcastStep(w, from, user), x, y,
                  if from == x && Has(w.sessions(x), user, y) then SendStep(p) else p)
  {
    hide AfterSend, SentKey, SentHeader;
    SendAllAt(w.sessions(from), user, f.owner(y), y);
    IssuedAt(w, from, user, y);
  }

  lemma ArriveKeepsShows(
      f: Fleet, w: World, to: DeviceId, peer: DeviceId, k: nat, drawn: nat, x: DeviceId, y: DeviceId,
      p: Party, q: Party)
    requires Shows(f, w, x, y, p) && Shows(f, w, y, x, q)
    requires Consistent(f, w)
    ensures Shows(f, ArriveStep(f, w, to, peer, k, drawn), x, y,
                  if to == x && peer == y && Has(w.sessions(x), f.owner(y), y) then DeliverStep(p, q, k, drawn) else p)
  {
    hide AdvanceReceive, CreateRatchet;
    if k < |w.sent(peer, to)| {
      hide ReceiveFrom, DeliverStep;
      ReceiveAt(w.sessions(to), f.owner(peer), w.sent(peer, to)[k].header, drawn, f.owner(y), y);
      if to == x && peer == y {
        DeliverStepIsReceive(p, q, k, drawn);
      }
    }
  }

  /** Every act is, to one pair of devices, the matching event of a two-party session, or nothing at all. */
  lemma ActProjects(f: Fleet, w: World, e: Act, x: DeviceId, y: DeviceId, p: Pair)
    requires x != y && Consistent(f, w) && Genuine(f, w, e) && ShowsPair(f, w, x, y, p)
    ensures ShowsPair(f, Perform(f, w, e), x, y, Run(p, Projected(f, w, e, x, y)))
  {
    hide Shows, SendStep, DeliverStep, MeetStep, BroadcastStep, ArriveStep, Genuine;
    match e {
      case Meet(_, _, _, _, _) =>
        MeetKeepsShows(f, w, e, x, y, p.a);
        MeetKeepsShows(f, w, e, y, x, p.b);
      case Broadcast(from, user) =>
        BroadcastKeepsShows(f, w, from, user, x, y, p.a);
        BroadcastKeepsShows(f, w, from, user, y, x, p.b);
      case Arrive(to, peer, k, drawn) =>
        ArriveKeepsShows(f, w, to, peer, k, drawn, x, y, p.a, p.b);
        ArriveKeepsShows(f, w, to, peer, k, drawn, y, x, p.b, p.a);
    }
    OneStep(p, Projected(f, w, e, x, y));
  }

  lemma OneStep(p: Pair, es: seq<Event>)
    requires |es| <= 1
    ensures Run(p, es) == if es == [] then p else Session.Step(p, es[0])
  {
    hide Session.Step;
    if |es| == 1 {
      assert es[..0] == [];
      assert Run(p, es[..0]) == p;
    }
  }

  lemma RunOneMore(p: Pair, es: seq<Event>, more: seq<Event>)
    requires |more| <= 1
    ensures Run(p, es + more) == Run(Run(p, es), more)
  {
    OneStep(Run(p, es), more);
    if more == [] {
      assert es + more == es;
    } else {
      assert (es + more)[..|es|] == es;
    }
  }

  lemma {:induction false} ActsProject(f: Fleet, es: seq<Act>, x: DeviceId, y: DeviceId, p: Pair)
    requires x != y && AllGenuine(f, es) && ShowsPair(f, Start(), x, y, p)
    ensures ShowsPair(f, Acts(f, Start(), es), x, y, Run(p, ProjectedAll(f, Start(), es, x, y)))
  {
    hide Consistent, ShowsPair, Perform, Projected, Genuine;
    if es != [] {
      var init, last := es[..|es| - 1], es[|es| - 1];
      var v := Acts(f, Start(), init);
      GenuineBefore(f, es);
      ActsProject(f, init, x, y, p);
      WorldConsistent(f, init);
      ActProjects(f, v, last, x, y, Run(p, ProjectedAll(f, Start(), init, x, y)));
      ProjectedShort(f, v, last, x, y);
      RunOneMore(p, ProjectedAll(f, Start(), init, x, y), Projected(f, v, last, x, y));
    }
  }

  lemma GenuineBefore(f: Fleet, es: seq<Act>)
    requires es != [] && AllGenuine(f, es)
    ensures var init := es[..|es| - 1]; AllGenuine(f, init) && Genuine(f, Acts(f, Start(), init), es[|es| - 1])
  {
    hide Genuine;
    var init := es[..|es| - 1];
    assert forall i | 0 <= i < |init| :: init[..i] == es[..i];
  }

  lemma NothingGenuine(f: Fleet)
    ensures AllGenuine(f, [])
  {
  }

  lemma GenuineMore(f: Fleet, acts: seq<Act>, e: Act)
    requires AllGenuine(f, acts) && Genuine(f, Acts(f, Start(), acts), e)
    ensures AllGenuine(f, acts + [e]) && Acts(f, Start(), acts + [e]) == Perform(f, Acts(f, Start(), acts), e)
  {
    hide Genuine, Perform;
    assert forall i | 0 <= i <= |acts| :: (acts + [e])[..i] == acts[..i];
  }

  lemma ProjectedShort(f: Fleet, w: World, e: Act, x: DeviceId, y: DeviceId)
    ensures |Projected(f, w, e, x, y)| <= 1
  {
  }

  // ---- Whole runs ----

  /** What a run of the world is to x and y: an honest session from where their handshake starts it. */
  lemma WorldShowsPair(f: Fleet, es: seq<Act>, x: DeviceId, y: DeviceId) returns (start: Pair, p: Pair)
    requires x != y && AllGenuine(f, es) && Shaken(f, x, y)
    ensures Built(f, x, y).Success? && Built(f, y, x).Success?
    ensures start == Pair(StartParty(x, Built(f, x, y).value), StartParty(y, Built(f, y, x).value))
    ensures Matched(start.a.ratchet, start.b.ratchet) && Honest(start) && SameKeys(start, p)
    ensures ShowsPair(f, Acts(f, Start(), es), x, y, p) && Honest(p) && Agreed(p.a, p.b)
  {
    hide CreateRatchet, Shaken, Honest, Matched;
    ShakenMatches(f, x, y);
    var a, b := Built(f, x, y).value, Built(f, y, x).value;
    start := Pair(StartParty(x, a), StartParty(y, b));
    StartIsHonest(a, b, x, y);
    ActsProject(f, es, x, y, start);
    p := Run(start, ProjectedAll(f, Start(), es, x, y));
    WholeRunAgreement(start, ProjectedAll(f, Start(), es, x, y));
  }

  /** Whatever other devices do, in every run of the world each header x issued for y gives y the issued key the
      first time it arrives, and throws every other time. */
  lemma FleetAgreement(f: Fleet, es: seq<Act>, x: DeviceId, y: DeviceId)
    requires x != y && AllGenuine(f, es) && Shaken(f, x, y)
    ensures var w := Acts(f, Start(), es);
      forall j | 0 <= j < |w.got(y, x)| ::
        && w.got(y, x)[j].message < |w.sent(x, y)|
        && w.got(y, x)[j].outcome
           == if Delivered(w.got(y, x)[..j], w.got(y, x)[j].message) then KeyNotFound
              else Received(w.sent(x, y)[w.got(y, x)[j].message].key)
  {
    hide Honest, SameKeys, Matched, Shaken, AllGenuine, CreateRatchet, Acts;
    var start, p := WorldShowsPair(f, es, x, y);
    var w := Acts(f, Start(), es);
    forall j | 0 <= j < |w.got(y, x)|
      ensures IsFirst(p.b, j) <==> !Delivered(w.got(y, x)[..j], w.got(y, x)[j].message) {
      assert forall i | 0 <= i < j :: w.got(y, x)[..j][i] == p.b.deliveries[i];
    }
  }

  /** What the arrival of any issued header does, at any point of any run. */
  lemma NextArrival(f: Fleet, es: seq<Act>, x: DeviceId, y: DeviceId, k: nat, drawn: nat)
    requires x != y && AllGenuine(f, es) && Shaken(f, x, y)
    requires k < |Acts(f, Start(), es).sent(x, y)|
    ensures var w := Acts(f, Start(), es);
      var (m, reply) := ReceiveFrom(w.sessions(y), f.owner(x), w.sent(x, y)[k].header, drawn);
      if !Has(w.sessions(y), f.owner(x), x) then !reply.Reply? && m == w.sessions(y)
      else if Delivered(w.got(y, x), k) then reply == Reply(KeyNotFound) && m == w.sessions(y)
      else reply == Reply(Received(w.sent(x, y)[k].key))
  {
    hide Acts, AllGenuine, Shaken, ReceiveFrom, Consistent, ShowsPair, Agreed, Matched, CreateRatchet;
    var start, p := WorldShowsPair(f, es, x, y);
    WorldConsistent(f, es);
    ArrivalShown(f, Acts(f, Start(), es), x, y, k, drawn, p);
  }

  lemma ArrivalShown(f: Fleet, w: World, x: DeviceId, y: DeviceId, k: nat, drawn: nat, p: Pair)
    requires Consistent(f, w) && ShowsPair(f, w, x, y, p) && Honest(p) && k < |w.sent(x, y)|
    ensures var (m, reply) := ReceiveFrom(w.sessions(y), f.owner(x), w.sent(x, y)[k].header, drawn);
      if !Has(w.sessions(y), f.owner(x), x) then !reply.Reply? && m == w.sessions(y)
      else if Delivered(w.got(y, x), k) then reply == Reply(KeyNotFound) && m == w.sessions(y)
      else reply == Reply(Received(w.sent(x, y)[k].key))
  {
    hide AdvanceReceive, Link, OneEpoch, Delivered, CreateRatchet;
    if Has(w.sessions(y), f.owner(x), x) {
      NextTake(p.a, p.b, k, drawn);
      PutSame(w.sessions(y), f.owner(x), x);
    }
  }

  lemma {:induction false} WorldConsistent(f: Fleet, es: seq<Act>)
    requires AllGenuine(f, es)
    ensures Consistent(f, Acts(f, Start(), es))
  {
    hide Perform, Genuine;
    if es != [] {
      GenuineBefore(f, es);
      WorldConsistent(f, es[..|es| - 1]);
      ActKeepsConsistent(f, Acts(f, Start(), es[..|es| - 1]), es[|es| - 1]);
    }
  }

  lemma NextTake(s: Party, r: Party, k: nat, drawn: nat)
    requires Link(s, r) && OneEpoch(s, r) && k < |s.issued|
    ensures AdvanceReceive(r.ratchet, s.issued[k].header, drawn)
         == if Delivered(r.deliveries, k) then (r.ratchet, KeyNotFound)
            else (AdvanceReceive(r.ratchet, s.issued[k].header, drawn).0, Received(s.issued[k].key))
  {
    assert InEpoch(s, k);
    ExactlyOnce(s, r);
    if !Delivered(r.deliveries, k) {
      FirstTakeAgrees(s, r, k);
    }
  }

  // ---- Fan-out ----

  lemma {:induction false} ActsConcat(f: Fleet, w: World, a: seq<Act>, b: seq<Act>)
    ensures Acts(f, w, a + b) == Acts(f, Acts(f, w, a), b)
  {
    hide Perform;
    if b == [] {
      assert a + b == a;
    } else {
      var last := |b| - 1;
      assert (a + b)[..|a| + last] == a + b[..last];
      ActsConcat(f, w, a, b[..last]);
    }
  }

  lemma {:induction false} SentGrows(f: Fleet, w: World, es: seq<Act>, x: DeviceId, y: DeviceId)
    ensures w.sent(x, y) <= Acts(f, w, es).sent(x, y)
  {
    if es != [] {
      SentGrows(f, w, es[..|es| - 1], x, y);
    }
  }

  /** A broadcast issues one key and header to each device x knows for the user, stamped with x, and nothing to any
      other device; what was delivered, and what every other device holds, stays. */
  lemma BroadcastIssuesOneEach(f: Fleet, w: World, x: DeviceId, user: string)
    ensures var w' := BroadcastStep(w, x, user);
      && (forall y | Has(w.sessions(x), user, y) ::
            var s := w.sessions(x)[user][y];
            w'.sent(x, y) == w.sent(x, y) + [Issue(SentKey(s), SentHeader(s).(deviceId := x))])
      && (forall a, b | a != x || !Has(w.sessions(x), user, b) :: w'.sent(a, b) == w.sent(a, b))
      && w'.got == w.got && (forall a | a != x :: w'.sessions(a) == w.sessions(a))
      && SentKeys(w.sessions(x), user, x).Keys == Of(w.sessions(x), user).Keys
  {
    hide AfterSend, SentKey, SentHeader;
    forall y ensures Has(w.sessions(x), user, y) ==> y in SentKeys(w.sessions(x), user, x) {
      IssuedAt(w, x, user, y);
    }
  }

  /** An arrival changes at most the receiving device's ratchet for the sending device. */
  lemma ArrivalChangesOneRatchet(
      f: Fleet, es: seq<Act>, to: DeviceId, peer: DeviceId, k: nat, drawn: nat, x: DeviceId, d: DeviceId)
    requires AllGenuine(f, es) && (x != to || d != peer)
    ensures var w := Acts(f, Start(), es); var w' := ArriveStep(f, w, to, peer, k, drawn);
      && w'.sent == w.sent && w'.got(x, d) == w.got(x, d)
      && forall u :: (Has(w'.sessions(x), u, d) <==> Has(w.sessions(x), u, d))
                     && (Has(w.sessions(x), u, d) ==> w'.sessions(x)[u][d] == w.sessions(x)[u][d])
  {
    hide AdvanceReceive;
    var w := Acts(f, Start(), es);
    if k < |w.sent(peer, to)| {
      WorldConsistent(f, es);
      forall u {
        ReceiveAt(w.sessions(to), f.owner(peer), w.sent(peer, to)[k].header, drawn, u, d);
      }
    }
  }

  /** The key a broadcast gave for a device is the one that device gets when the header first arrives, no matter what
      happens in between. */
  lemma FanOutDelivers(
      f: Fleet, before: seq<Act>, x: DeviceId, user: string, y: DeviceId, after: seq<Act>, drawn: nat)
    requires x != y && AllGenuine(f, before + [Broadcast(x, user)] + after) && Shaken(f, x, y)
    requires Has(Acts(f, Start(), before).sessions(x), user, y)
    ensures var w := Acts(f, Start(), before);
      var v := Acts(f, BroadcastStep(w, x, user), after);
      var k := |w.sent(x, y)|;
      && k < |v.sent(x, y)| && y in SentKeys(w.sessions(x), user, x)
      && v.sent(x, y)[k] == Issue(SentKeys(w.sessions(x), user, x)[y].0, SentKeys(w.sessions(x), user, x)[y].1)
      && (Has(v.sessions(y), f.owner(x), x) && !Delivered(v.got(y, x), k) ==>
            ReceiveFrom(v.sessions(y), f.owner(x), v.sent(x, y)[k].header, drawn).1
            == Reply(Received(SentKeys(w.sessions(x), user, x)[y].0)))
  {
    hide AfterSend, SentKey, SentHeader, AdvanceReceive, Shaken, AllGenuine;
    var w := Acts(f, Start(), before);
    var b := BroadcastStep(w, x, user);
    var k := |w.sent(x, y)|;
    IssuedAt(w, x, user, y);
    SentGrows(f, b, after, x, y);
    var es := before + [Broadcast(x, user)];
    assert es[..|before|] == before;
    ActsConcat(f, Start(), es, after);
    NextArrival(f, es + after, x, y, k, drawn);
  }

  /** Keys issued in sessions with different DH outputs differ, so no key of one device pair is one of another's. */
  lemma FleetKeysDiffer(
      f: Fleet, es: seq<Act>, x: DeviceId, y: DeviceId, z: DeviceId, t: DeviceId, a: State, b: State)
    requires AllGenuine(f, es) && x != y && Shaken(f, x, y) && z != t && Shaken(f, z, t)
    requires Built(f, x, y) == Success(a) && Built(f, z, t) == Success(b) && DhOutput(a) != DhOutput(b)
    ensures var w := Acts(f, Start(), es);
      forall j, k | 0 <= j < |w.sent(x, y)| && 0 <= k < |w.sent(z, t)| :: w.sent(x, y)[j].key != w.sent(z, t)[k].key
  {
    hide Acts, AllGenuine, Shaken, MessageKeyAt, CreateRatchet, DhOutput;
    var w := Acts(f, Start(), es);
    forall j, k | 0 <= j < |w.sent(x, y)| && 0 <= k < |w.sent(z, t)|
      ensures w.sent(x, y)[j].key != w.sent(z, t)[k].key
    {
      IssuedFromStart(f, es, x, y, j, a);
      IssuedFromStart(f, es, z, t, k, b);
      StartKeysDiffer(a, j, b, k);
    }
  }

  lemma StartKeysDiffer(a: State, j: nat, b: State, k: nat)
    requires a == WithInitialChains(a) && b == WithInitialChains(b) && DhOutput(a) != DhOutput(b)
    ensures MessageKeyAt(a.sendChain.key, j) != MessageKeyAt(b.sendChain.key, k)
  {
    hide DhOutput;
    if MessageKeyAt(a.sendChain.key, j) == MessageKeyAt(b.sendChain.key, k) {
      StartBase(a);
      StartBase(b);
      ChainKeysDiffer(a.sendChain.key, j, b.sendChain.key, k);
      WordOfBytes(DhOutput(a), KEY_LENGTH);
      WordOfBytes(DhOutput(b), KEY_LENGTH);
    }
  }

  lemma StartBase(s: State)
    requires s == WithInitialChains(s)
    ensures IsBase(s.sendChain.key) && s.sendChain.key.Kdf? && s.sendChain.key.key == KdfKey(DhOutput(s))
  {
  }

  lemma IssuedFromStart(f: Fleet, es: seq<Act>, x: DeviceId, y: DeviceId, k: nat, a: State)
    requires x != y && AllGenuine(f, es) && Shaken(f, x, y) && Built(f, x, y) == Success(a)
    requires k < |Acts(f, Start(), es).sent(x, y)|
    ensures a == WithInitialChains(a)
    ensures Acts(f, Start(), es).sent(x, y)[k].key == MessageKeyAt(a.sendChain.key, k)
  {
    hide CreateRatchet, WithInitialChains;
    var start, p := WorldShowsPair(f, es, x, y);
    assert InEpoch(p.a, k) && Logged(p.a, k);
  }

  // ---- What the manager's calls are ----

  /** get_keys_for_identity with fetched bundles is a meeting, and unless a bundle fails a broadcast after it. */
  lemma FetchingIsMeeting(
      f: Fleet, w: World, x: DeviceId, user: string, fetched: Option<seq<Offer>>, store: KeyStore)
    ensures var g := WithFetched(w.sessions(x), user, fetched, store);
      var meet := if fetched.Some? then [Meet(x, user, fetched.value, store, true)] else [];
      && Acts(f, w, meet).sessions(x) == g.sessions
      && Acts(f, w, meet + [Broadcast(x, user)]).sessions(x) == SendAll(g.sessions, user)
      && forall d :: Acts(f, w, meet + [Broadcast(x, user)]).sent(x, d)
           == w.sent(x, d) + (var keys := SentKeys(g.sessions, user, x);
                              if d in keys then [Issue(keys[d].0, keys[d].1)] else [])
  {
    hide CreateAll, SendAll, SentKeys;
    var meet := if fetched.Some? then [Meet(x, user, fetched.value, store, true)] else [];
    if fetched.Some? {
      assert meet[..0] == [];
    }
    assert (meet + [Broadcast(x, user)])[..|meet|] == meet;
  }

  /** In every state, the bundle the fleet names makes a session unless there is one. */
  lemma BundleMakesSession(f: Fleet, w: World, x: DeviceId, y: DeviceId, post: bool)
    requires f.offer(x, y).bundle.theirDevicePublic == y && Built(f, x, y).Success?
    ensures var e := Meet(x, f.owner(y), [f.offer(x, y)], f.store(x, y), post);
      && Genuine(f, w, e) && Has(Perform(f, w, e).sessions(x), f.owner(y), y)
      && (!Has(w.sessions(x), f.owner(y), y) ==>
            Built(f, x, y) == Success(Perform(f, w, e).sessions(x)[f.owner(y)][y]))
  {
    hide CreateRatchet;
    var known, offers := Of(w.sessions(x), f.owner(y)), [f.offer(x, y)];
    assert offers[1..] == [];
    assert CreateAll(known, offers, f.store(x, y), post).ratchets
        == if y in known then known else known[y := Built(f, x, y).value];
  }

  /** After any run, the initiator fetching the bundle of a handshake and the responder processing what was posted gives
      each a session with the other. */
  lemma HandshakeMeets(f: Fleet, es: seq<Act>, x: DeviceId, y: DeviceId, h: Handshake)
    requires AllGenuine(f, es) && Handshaken(f, x, y, h) && x == EdPublic(h.initiator) && y == EdPublic(h.responder)
    ensures var more := es + [Meet(x, f.owner(y), [f.offer(x, y)], f.store(x, y), true)]
                           + [Meet(y, f.owner(x), [f.offer(y, x)], f.store(y, x), true)];
      var w := Acts(f, Start(), more);
      && AllGenuine(f, more) && Shaken(f, x, y)
      && Has(w.sessions(x), f.owner(y), y) && Has(w.sessions(y), f.owner(x), x)
  {
    HandshakenMatches(f, x, y, h);
    hide Genuine, AllGenuine, CreateRatchet, CreateAll, Matched;
    var first, second :=
      Meet(x, f.owner(y), [f.offer(x, y)], f.store(x, y), true),
      Meet(y, f.owner(x), [f.offer(y, x)], f.store(y, x), true);
    BundleMakesSession(f, Acts(f, Start(), es), x, y, true);
    GenuineMore(f, es, first);
    BundleMakesSession(f, Acts(f, Start(), es + [first]), y, x, true);
    GenuineMore(f, es + [first], second);
    CreationIsMonotone(Of(Acts(f, Start(), es + [first]).sessions(y), f.owner(x)), second.offers, second.store, true);
  }

  function MeetingsOf(x: DeviceId, handshakes: seq<(string, Offer)>, store: KeyStore): seq<Act> {
    seq(|handshakes|, i requires 0 <= i < |handshakes| => Meet(x, handshakes[i].0, [handshakes[i].1], store, true))
  }

  /** update_handshakes is one meeting after the other, up to the one that fails. */
  lemma {:induction false} AcceptingIsMeeting(
      f: Fleet, w: World, x: DeviceId, handshakes: seq<(string, Offer)>, store: KeyStore) returns (n: nat)
    ensures n <= |handshakes| && (AcceptAll(w.sessions(x), handshakes, store).error.None? ==> n == |handshakes|)
    ensures Acts(f, w, MeetingsOf(x, handshakes[..n], store)).sessions(x)
         == AcceptAll(w.sessions(x), handshakes, store).sessions
    decreases |handshakes|
  {
    hide CreateAll;
    if handshakes == [] {
      n := 0;
    } else {
      var (user, offer) := handshakes[0];
      var c := CreateAll(Of(w.sessions(x), user), [offer], store, true);
      var v := MeetStep(w, x, user, [offer], store, true);
      var first := [Meet(x, user, [offer], store, true)];
      assert first[..0] == [];
      assert Acts(f, w, first) == v;
      if c.error.Some? {
        n := 1;
        assert MeetingsOf(x, handshakes[..1], store) == first;
      } else {
        var rest := AcceptingIsMeeting(f, v, x, handshakes[1..], store);
        n := rest + 1;
        assert MeetingsOf(x, handshakes[..n], store) == first + MeetingsOf(x, handshakes[1..][..rest], store);
        ActsConcat(f, w, first, MeetingsOf(x, handshakes[1..][..rest], store));
      }
    }
  }
}
