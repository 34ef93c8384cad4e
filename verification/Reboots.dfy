/** Runs of any number of devices over their databases, with restarts of any of them at any moment. */
module Reboots {
  import opened Wrappers
  import opened Integers
  import opened Crypto
  import opened Ratchet
  import Codec
  import opened KeyBundle
  import opened Sessions
  import opened Session
  import opened Coherence
  import opened World
  import D = Database
  import R = Reloading
  import Restart
  import Room

  /** The devices with their memory, and the tables of each. */
  datatype Machines = Machines(world: World, tables: DeviceId -> D.Tables)

  datatype Turn = Performs(act: Act) | Reboots(device: DeviceId)

  /** What an act is to the manager of a device. */
  function OperationAt(f: Fleet, w: World, e: Act, d: DeviceId): Option<Operation> {
    match e
    case Meet(x, user, offers, store, post) => if d == x then Some(Creates(user, offers, store, post)) else None
    case Broadcast(from, user) => if d == from then Some(Sends(user, from)) else None
    case Arrive(to, peer, k, drawn) =>
      if d == to && k < |w.sent(peer, to)| then Some(Receives(f.owner(peer), w.sent(peer, to)[k].header, drawn))
      else None
  }

  function At(s: Machines, d: DeviceId): R.Installed {
    R.Installed(s.world.sessions(d), s.tables(d))
  }

  /** An act is one operation with its rows at the device that acts; a restart replaces memory by what its rows hold. */
  ghost predicate Next(f: Fleet, kek: DeviceId -> Term, s: Machines, a: Turn, s': Machines) {
    match a
    case Performs(e) =>
      && s'.world == Perform(f, s.world, e)
      && forall d :: var op := OperationAt(f, s.world, e, d);
           if op.Some? then R.Next(kek(d), At(s, d), R.Works(op.value), At(s', d)) else s'.tables(d) == s.tables(d)
    case Reboots(x) =>
      && s'.world.sent == s.world.sent && s'.world.got == s.world.got && s'.tables == s.tables
      && R.Next(kek(x), At(s, x), R.Restarts, At(s', x))
      && forall d | d != x :: s'.world.sessions(d) == s.world.sessions(d)
  }

  ghost predicate Initially(s: Machines) {
    s.world == Start() && forall d :: s.tables(d).ratchets == map[]
  }

  ghost predicate IsRun(f: Fleet, kek: DeviceId -> Term, states: seq<Machines>, turns: seq<Turn>) {
    && |states| == |turns| + 1 && Initially(states[0])
    && forall i | 0 <= i < |turns| ::
         && (turns[i].Performs? ==> Genuine(f, states[i].world, turns[i].act))
         && Next(f, kek, states[i], turns[i], states[i + 1])
  }

  /** The same run without its restarts. */
  function ActsOf(turns: seq<Turn>): seq<Act> {
    if turns == [] then []
    else ActsOf(turns[..|turns| - 1]) + if turns[|turns| - 1].Performs? then [turns[|turns| - 1].act] else []
  }

  // ---- What a run keeps ----

  /** The same messages issued and delivered, and sessions that read back the same. */
  ghost predicate Like(w: World, v: World) {
    && (forall x, y :: w.sent(x, y) == v.sent(x, y) && w.got(x, y) == v.got(x, y))
    && (forall d :: R.Alike(w.sessions(d), v.sessions(d)))
  }

  /** Issued headers and send chains count from 0, and issued headers fit. */
  ghost predicate Counting(w: World) {
    && (forall x, u, d | Has(w.sessions(x), u, d) :: 0 <= w.sessions(x)[u][d].sendChain.index)
    && (forall x, y, k | 0 <= k < |w.sent(x, y)| ::
          0 <= w.sent(x, y)[k].header.messageIndex && Restart.HeaderFits(w.sent(x, y)[k].header))
  }

  ghost predicate Kept(kek: DeviceId -> Term, s: Machines, left: nat) {
    && (forall d :: R.InStep(At(s, d), kek(d)) && Room.AllRoomy(s.world.sessions(d), left))
    && Counting(s.world)
  }

  /** Only bundles bring in values of their own, and there are fewer turns than an int counts. */
  ghost predicate Bounded(turns: seq<Turn>) {
    |turns| < TWO_31 && forall i | 0 <= i < |turns| && turns[i].Performs? :: UnsetFits(turns[i].act)
  }

  ghost predicate UnsetFits(e: Act) {
    e.Meet? ==> forall i | 0 <= i < |e.offers| :: Codec.IsInt32(e.offers[i].unset)
  }

  // ---- Alike worlds ----

  lemma AlikeHas(m: Sessions, n: Sessions, u: string, d: DeviceId)
    requires R.Alike(m, n)
    ensures Has(m, u, d) <==> Has(n, u, d)
    ensures Has(m, u, d) ==> Codec.Observe(m[u][d]) == Codec.Observe(n[u][d])
  {
    hide Codec.Observe;
    assert R.AlikeRatchets(Of(m, u), Of(n, u));
    assert Has(m, u, d) <==> d in Of(m, u);
    assert Has(n, u, d) <==> d in Of(n, u);
  }

  lemma ReachedAlike(m: Ratchets, n: Ratchets, offers: seq<Offer>, store: KeyStore, i: nat)
    requires m.Keys == n.Keys && i < |offers|
    ensures Reached(m, offers, store, i) <==> Reached(n, offers, store, i)
  {
    hide CreateRatchet;
    assert forall j | 0 <= j <= i :: Passes(m, offers, store, j) <==> Passes(n, offers, store, j);
  }

  /** The fleet tells the same bundles apart in worlds that are alike. */
  lemma GenuineAlike(f: Fleet, w: World, v: World, e: Act)
    requires Like(w, v) && Genuine(f, w, e)
    ensures Genuine(f, v, e)
  {
    hide Reached;
    if e.Meet? {
      var known, others := Of(w.sessions(e.device), e.user), Of(v.sessions(e.device), e.user);
      assert R.AlikeRatchets(known, others);
      forall i | 0 <= i < |e.offers| ensures GenuineOffer(f, others, e, i) {
        assert GenuineOffer(f, known, e, i);
        ReachedAlike(known, others, e.offers, e.store, i);
      }
    }
  }

  lemma ConsistentAlike(f: Fleet, w: World, v: World)
    requires Like(w, v) && Consistent(f, v)
    ensures Consistent(f, w)
  {
    forall x, u, d | Has(w.sessions(x), u, d) ensures u == f.owner(d) {
      AlikeHas(w.sessions(x), v.sessions(x), u, d);
    }
  }

  /** An act changes the sessions of each device as its operation there does. */
  lemma PerformDoes(f: Fleet, w: World, e: Act, d: DeviceId)
    ensures var op := OperationAt(f, w, e, d);
      Perform(f, w, e).sessions(d) == if op.Some? then Does(w.sessions(d), op.value) else w.sessions(d)
  {
    hide CreateAll, SendAll, AdvanceReceive;
  }

  lemma PerformAlike(f: Fleet, w: World, v: World, e: Act)
    requires Like(w, v)
    ensures Like(Perform(f, w, e), Perform(f, v, e))
  {
    var w', v' := Perform(f, w, e), Perform(f, v, e);
    forall d ensures R.Alike(w'.sessions(d), v'.sessions(d)) {
      hide Perform, Does, R.Alike;
      PerformDoes(f, w, e, d);
      PerformDoes(f, v, e, d);
      var op := OperationAt(f, w, e, d);
      assert op == OperationAt(f, v, e, d) && R.Alike(w.sessions(d), v.sessions(d));
      if op.Some? {
        R.WorksAlike(w.sessions(d), v.sessions(d), op.value);
      }
    }
    forall x, y ensures w'.sent(x, y) == v'.sent(x, y) && w'.got(x, y) == v'.got(x, y) {
      LogsAlike(f, w, v, e, x, y);
    }
  }

  lemma LogsAlike(f: Fleet, w: World, v: World, e: Act, x: DeviceId, y: DeviceId)
    requires Like(w, v)
    ensures Perform(f, w, e).sent(x, y) == Perform(f, v, e).sent(x, y)
    ensures Perform(f, w, e).got(x, y) == Perform(f, v, e).got(x, y)
  {
    hide Does, R.Alike, ReceiveFrom, SentKeys, CreateAll, SendAll;
    match e {
      case Meet(_, _, _, _, _) =>
      case Broadcast(from, user) =>
        R.WorksAlike(w.sessions(from), v.sessions(from), Sends(user, from));
      case Arrive(to, peer, k, drawn) =>
        if k < |w.sent(peer, to)| {
          R.WorksAlike(
            w.sessions(to), v.sessions(to), Receives(f.owner(peer), w.sent(peer, to)[k].header, drawn));
        }
    }
  }

  // ---- Every operation of a run is safe ----

  /** Bundles are for devices of their user, and no header that was issued has a negative index. */
  lemma ActIsSafe(f: Fleet, w: World, e: Act, d: DeviceId)
    requires Consistent(f, w) && Counting(w) && Genuine(f, w, e)
    ensures var op := OperationAt(f, w, e, d); op.Some? ==> Safe(w.sessions(d), op.value)
  {
    hide Reached, Restart.HeaderFits;
    if e.Meet? && e.device == d {
      var m := w.sessions(d);
      forall i, u | 0 <= i < |e.offers| && Reached(Of(m, e.user), e.offers, e.store, i) && u in m && u != e.user
        ensures e.offers[i].bundle.theirDevicePublic in Of(m, e.user) || e.offers[i].bundle.theirDevicePublic !in m[u]
      {
        assert GenuineOffer(f, Of(m, e.user), e, i);
        assert !Has(w.sessions(d), u, e.offers[i].bundle.theirDevicePublic);
      }
    }
  }

  lemma ActFits(f: Fleet, w: World, e: Act, d: DeviceId)
    requires Counting(w) && UnsetFits(e)
    ensures var op := OperationAt(f, w, e, d); op.Some? ==> R.FitsIn(R.Works(op.value))
  {
    hide Restart.HeaderFits, Codec.IsInt32;
  }

  // ---- Counting is kept ----

  ghost predicate Counts(m: Sessions) {
    forall u, d | Has(m, u, d) :: 0 <= m[u][d].sendChain.index
  }

  lemma DoesCounts(m: Sessions, op: Operation)
    requires Counts(m)
    ensures Counts(Does(m, op))
  {
    forall u, d | Has(Does(m, op), u, d) ensures 0 <= Does(m, op)[u][d].sendChain.index {
      match op {
        case Creates(user, offers, store, post) => CreatedCounts(m, user, offers, store, post, u, d);
        case Sends(user, _) => SendAllAt(m, user, u, d); AfterSendCounts(m[u][d]);
        case Receives(user, h, drawn) =>
          hide AdvanceReceive;
          ReceiveAt(m, user, h, drawn, u, d);
          ReceiveCounts(m[u][d], h, drawn);
      }
    }
  }

  lemma CreatedCounts(
      m: Sessions, user: string, offers: seq<Offer>, store: KeyStore, post: bool, u: string, d: DeviceId)
    requires Counts(m)
    ensures var n := m[user := CreateAll(Of(m, user), offers, store, post).ratchets];
      Has(n, u, d) ==> 0 <= n[u][d].sendChain.index
  {
    hide CreateAll;
    var r := CreateAll(Of(m, user), offers, store, post).ratchets;
    CreationIsMonotone(Of(m, user), offers, store, post);
    if u == user && d in r && d !in Of(m, user) {
      var i := CreatedFrom(Of(m, user), offers, store, post, d);
    } else {
      assert d in Of(m, user) ==> Has(m, user, d);
    }
  }

  lemma AfterSendCounts(s: State)
    requires 0 <= s.sendChain.index
    ensures 0 <= AfterSend(s).sendChain.index && 0 <= SentHeader(s).messageIndex
  {
  }

  lemma ReceiveCounts(s: State, h: Header, drawn: nat)
    requires 0 <= s.sendChain.index
    ensures 0 <= AdvanceReceive(s, h, drawn).0.sendChain.index
  {
  }

  lemma SentFits(s: State, left: nat)
    requires Restart.Roomy(s, left) && left > 0
    ensures Restart.HeaderFits(SentHeader(s))
  {
  }

  lemma PerformCounts(f: Fleet, w: World, e: Act, left: nat)
    requires Counting(w) && left > 0 && forall d :: Room.AllRoomy(w.sessions(d), left)
    ensures Counting(Perform(f, w, e))
  {
    hide Restart.Roomy, Restart.HeaderFits, AfterSend, AdvanceReceive, SentHeader, SentKey, Does;
    var w' := Perform(f, w, e);
    forall x, u, d | Has(w'.sessions(x), u, d) ensures 0 <= w'.sessions(x)[u][d].sendChain.index {
      hide Perform;
      PerformDoes(f, w, e, x);
      assert Counts(w.sessions(x));
      var op := OperationAt(f, w, e, x);
      if op.Some? {
        DoesCounts(w.sessions(x), op.value);
      }
    }
    forall x, y, k | 0 <= k < |w'.sent(x, y)|
      ensures 0 <= w'.sent(x, y)[k].header.messageIndex && Restart.HeaderFits(w'.sent(x, y)[k].header)
    {
      if |w.sent(x, y)| <= k {
        IssuedCounts(w, x, e.user, y, left);
      } else {
        assert w'.sent(x, y)[k] == w.sent(x, y)[k];
      }
    }
  }

  lemma IssuedCounts(w: World, x: DeviceId, user: string, y: DeviceId, left: nat)
    requires Counting(w) && left > 0 && Room.AllRoomy(w.sessions(x), left)
    ensures forall i | i in Issued(w, x, user, y) :: 0 <= i.header.messageIndex && Restart.HeaderFits(i.header)
  {
    hide Restart.Roomy, SentHeader, SentKey, Issued;
    IssuedAt(w, x, user, y);
    if Has(w.sessions(x), user, y) {
      AfterSendCounts(w.sessions(x)[user][y]);
      SentFits(w.sessions(x)[user][y], left);
    }
  }

  // ---- One turn ----

  lemma PerformKeeps(f: Fleet, kek: DeviceId -> Term, s: Machines, e: Act, s': Machines, left: nat)
    requires Kept(kek, s, left) && 0 < left < TWO_31 && Next(f, kek, s, Performs(e), s')
    requires Consistent(f, s.world) && Genuine(f, s.world, e) && UnsetFits(e)
    ensures Kept(kek, s', left - 1)
  {
    hide Counting, Perform, Genuine, Consistent, R.InStep, R.Next, Room.AllRoomy, Does, Safe, R.FitsIn, UnsetFits;
    PerformCounts(f, s.world, e, left);
    forall d ensures R.InStep(At(s', d), kek(d)) && Room.AllRoomy(s'.world.sessions(d), left - 1) {
      var op := OperationAt(f, s.world, e, d);
      PerformDoes(f, s.world, e, d);
      if op.Some? {
        ActIsSafe(f, s.world, e, d);
        ActFits(f, s.world, e, d);
        R.WorkInStepExactly(kek(d), At(s, d), op.value, At(s', d), left);
      } else {
        Room.LessRoom(s.world.sessions(d), left, left - 1);
      }
    }
  }

  lemma RebootKeeps(
      f: Fleet, kek: DeviceId -> Term, s: Machines, x: DeviceId, s': Machines, left: nat, v: World)
    requires Kept(kek, s, left) && 0 < left && Next(f, kek, s, Reboots(x), s') && Like(s.world, v)
    ensures Kept(kek, s', left - 1) && Like(s'.world, v)
  {
    hide R.InStep, R.Next, R.Alike, Room.AllRoomy, Restart.HeaderFits;
    forall d
      ensures R.InStep(At(s', d), kek(d)) && Room.AllRoomy(s'.world.sessions(d), left - 1)
      ensures R.Alike(s'.world.sessions(d), v.sessions(d))
    {
      if d == x {
        R.RestartStep(kek(x), At(s, x), At(s', x), left, v.sessions(x));
      } else {
        Room.LessRoom(s.world.sessions(d), left, left - 1);
      }
    }
    R.AlikeItself(s.world.sessions(x));
    R.RestartStep(kek(x), At(s, x), At(s', x), left, s.world.sessions(x));
    forall y, u, d | Has(s'.world.sessions(y), u, d) ensures 0 <= s'.world.sessions(y)[u][d].sendChain.index {
      if y == x {
        AlikeHas(s'.world.sessions(x), s.world.sessions(x), u, d);
      }
    }
  }

  // ---- Whole runs ----

  lemma StartKept(kek: DeviceId -> Term, s: Machines, left: nat)
    requires Initially(s)
    ensures Kept(kek, s, left)
  {
    forall d ensures R.InStep(At(s, d), kek(d)) && Room.AllRoomy(s.world.sessions(d), left) {
      assert D.Opened(s.tables(d), kek(d)) == map[];
    }
  }

  lemma LikeItself(w: World)
    ensures Like(w, w)
  {
    hide Codec.Observe;
  }

  lemma NoActs(f: Fleet)
    ensures Acts(f, Start(), []) == Start()
  {
  }

  lemma {:induction false} RunSoFar(
      f: Fleet, kek: DeviceId -> Term, states: seq<Machines>, turns: seq<Turn>, n: nat)
    requires IsRun(f, kek, states, turns) && Bounded(turns) && n <= |turns|
    ensures Kept(kek, states[n], |turns| - n) && AllGenuine(f, ActsOf(turns[..n]))
    ensures Like(states[n].world, Acts(f, Start(), ActsOf(turns[..n])))
  {
    hide Kept, Like, Next, AllGenuine, Genuine, UnsetFits, Acts;
    if n == 0 {
      StartKept(kek, states[0], |turns|);
      LikeItself(states[0].world);
      NothingGenuine(f);
      NoActs(f);
    } else {
      RunSoFar(f, kek, states, turns, n - 1);
      var s, s', a, acts := states[n - 1], states[n], turns[n - 1], ActsOf(turns[..n - 1]);
      assert turns[..n][..n - 1] == turns[..n - 1];
      assert Next(f, kek, s, a, s') && (a.Performs? ==> Genuine(f, s.world, a.act) && UnsetFits(a.act));
      TurnKeeps(f, kek, s, a, s', |turns| - (n - 1), acts);
      assert ActsOf(turns[..n]) == acts + if a.Performs? then [a.act] else [];
    }
  }

  lemma TurnKeeps(
      f: Fleet, kek: DeviceId -> Term, s: Machines, a: Turn, s': Machines, left: nat, acts: seq<Act>)
    requires Kept(kek, s, left) && 0 < left < TWO_31 && Next(f, kek, s, a, s')
    requires AllGenuine(f, acts) && Like(s.world, Acts(f, Start(), acts))
    requires a.Performs? ==> Genuine(f, s.world, a.act) && UnsetFits(a.act)
    ensures var more := acts + if a.Performs? then [a.act] else [];
      && Kept(kek, s', left - 1) && AllGenuine(f, more) && Like(s'.world, Acts(f, Start(), more))
  {
    hide Kept, Like, Next, AllGenuine, Perform, Consistent, Genuine, UnsetFits, Acts;
    var v := Acts(f, Start(), acts);
    match a {
      case Performs(e) =>
        WorldConsistent(f, acts);
        ConsistentAlike(f, s.world, v);
        PerformKeeps(f, kek, s, e, s', left);
        TurnExtends(f, kek, s, e, s', acts);
      case Reboots(x) =>
        RebootKeeps(f, kek, s, x, s', left, v);
        assert acts + [] == acts;
    }
  }

  lemma TurnExtends(f: Fleet, kek: DeviceId -> Term, s: Machines, e: Act, s': Machines, acts: seq<Act>)
    requires AllGenuine(f, acts) && Like(s.world, Acts(f, Start(), acts))
    requires Genuine(f, s.world, e) && Next(f, kek, s, Performs(e), s')
    ensures AllGenuine(f, acts + [e]) && Like(s'.world, Acts(f, Start(), acts + [e]))
  {
    hide Like, AllGenuine, Perform, Genuine;
    var v := Acts(f, Start(), acts);
    GenuineAlike(f, s.world, v, e);
    GenuineMore(f, acts, e);
    PerformAlike(f, s.world, v, e);
  }

  /** Without restarts the indices may be any. */
  lemma {:induction false} RunWithoutReboots(
      f: Fleet, kek: DeviceId -> Term, states: seq<Machines>, turns: seq<Turn>, n: nat)
    requires IsRun(f, kek, states, turns) && n <= |turns| && forall i | 0 <= i < |turns| :: turns[i].Performs?
    ensures AllGenuine(f, ActsOf(turns[..n]))
    ensures Like(states[n].world, Acts(f, Start(), ActsOf(turns[..n])))
  {
    hide Like, Next, AllGenuine, Perform, Genuine;
    if n == 0 {
      LikeItself(states[0].world);
      NothingGenuine(f);
    } else {
      RunWithoutReboots(f, kek, states, turns, n - 1);
      assert turns[..n][..n - 1] == turns[..n - 1];
      assert Next(f, kek, states[n - 1], turns[n - 1], states[n]);
      TurnExtends(f, kek, states[n - 1], turns[n - 1].act, states[n], ActsOf(turns[..n - 1]));
    }
  }

  ghost predicate Sound(turns: seq<Turn>) {
    Bounded(turns) || forall i | 0 <= i < |turns| :: turns[i].Performs?
  }

  /** Dropping every restart of every device from a run changes no message that was issued, nothing that was
      delivered, and no session as far as anything reads it. Nothing is asked of the operations: in a fleet each of
      them is safe. */
  lemma RebootsAreInvisible(f: Fleet, kek: DeviceId -> Term, states: seq<Machines>, turns: seq<Turn>, n: nat)
    requires IsRun(f, kek, states, turns) && Sound(turns) && n <= |turns|
    ensures AllGenuine(f, ActsOf(turns[..n]))
    ensures Like(states[n].world, Acts(f, Start(), ActsOf(turns[..n])))
  {
    hide IsRun, Like, AllGenuine, Acts;
    if Bounded(turns) {
      RunSoFar(f, kek, states, turns, n);
    } else {
      RunWithoutReboots(f, kek, states, turns, n);
    }
  }

  /** In every run with restarts, each header between two devices of one handshake gives its addressee the issued key
      the first time it arrives, and throws every other time. */
  lemma AgreementOverReboots(
      f: Fleet, kek: DeviceId -> Term, states: seq<Machines>, turns: seq<Turn>, n: nat, x: DeviceId, y: DeviceId)
    requires IsRun(f, kek, states, turns) && Sound(turns) && n <= |turns| && x != y && Shaken(f, x, y)
    ensures var w := states[n].world;
      forall j | 0 <= j < |w.got(y, x)| ::
        && w.got(y, x)[j].message < |w.sent(x, y)|
        && w.got(y, x)[j].outcome
           == if Delivered(w.got(y, x)[..j], w.got(y, x)[j].message) then KeyNotFound
              else Received(w.sent(x, y)[w.got(y, x)[j].message].key)
  {
    hide IsRun, Sound, Shaken, AllGenuine, Acts, R.Alike, Delivered;
    RebootsAreInvisible(f, kek, states, turns, n);
    FleetAgreement(f, ActsOf(turns[..n]), x, y);
  }

  /** What the arrival of any issued header gives in a world that is alike one of a run. */
  lemma ArrivalAlike(f: Fleet, w: World, acts: seq<Act>, x: DeviceId, y: DeviceId, k: nat, drawn: nat)
    requires Like(w, Acts(f, Start(), acts)) && AllGenuine(f, acts) && x != y && Shaken(f, x, y)
    requires k < |w.sent(x, y)|
    ensures var reply := ReceiveFrom(w.sessions(y), f.owner(x), w.sent(x, y)[k].header, drawn).1;
      if !Has(w.sessions(y), f.owner(x), x) then !reply.Reply?
      else if Delivered(w.got(y, x), k) then reply == Reply(KeyNotFound)
      else reply == Reply(Received(w.sent(x, y)[k].key))
  {
    hide Shaken, AllGenuine, Acts, ReceiveFrom, Delivered, R.Alike;
    var v := Acts(f, Start(), acts);
    NextArrival(f, acts, x, y, k, drawn);
    AlikeHas(w.sessions(y), v.sessions(y), f.owner(x), x);
    R.ReceivesAlike(w.sessions(y), v.sessions(y), f.owner(x), w.sent(x, y)[k].header, drawn);
  }
}
