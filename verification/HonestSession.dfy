/** Sessions that start from matching handshake keys: they never leave their first epoch, so every header may be
    delivered at any time, any number of times. */
module HonestSession {
  import opened Crypto
  import opened Ratchet
  import opened Backlog
  import opened Session

  /** Everything s ever issued belongs to the one epoch r tracks, and replays throw. */
  ghost predicate OneEpoch(s: Party, r: Party) {
    && r.ratchet.remoteDhPublic == s.ratchet.localDhPublic
    && !s.ratchet.dueToSendNewDh
    && |s.issued| == s.ratchet.sendChain.index
    && (forall k | 0 <= k < |s.issued| :: InEpoch(s, k))
    && r.backlog.stale == map[]
    && (forall j | 0 <= j < |r.deliveries| && !IsFirst(r, j) :: r.deliveries[j].outcome == KeyNotFound)
  }

  ghost predicate InEpoch(s: Party, k: nat)
    requires k < |s.issued|
  {
    s.issued[k].header.dhPublic == s.ratchet.localDhPublic && s.issued[k].header.messageIndex == k
  }

  ghost predicate Honest(p: Pair) {
    Lockstep(p) && OneEpoch(p.a, p.b) && OneEpoch(p.b, p.a)
  }

  // ---- Every event keeps it ----

  lemma SendKeepsOneEpoch(s: Party, r: Party)
    requires Sending(s) && OneEpoch(s, r) && OneEpoch(r, s)
    ensures OneEpoch(SendStep(s), r) && OneEpoch(r, SendStep(s))
  {
    AfterSendShape(s.ratchet);
    var t := SendStep(s);
    forall k | 0 <= k < |t.issued| ensures InEpoch(t, k) {
      if k < |s.issued| {
        assert InEpoch(s, k) && t.issued[k] == s.issued[k];
      }
    }
    assert forall j | 0 <= j < |t.deliveries| :: IsFirst(t, j) == IsFirst(s, j);
  }

  lemma DeliverKeepsOneEpoch(s: Party, r: Party, k: nat, drawn: nat)
    requires Link(s, r) && OneEpoch(s, r) && OneEpoch(r, s)
    ensures OneEpoch(s, DeliverStep(r, s, k, drawn)) && OneEpoch(DeliverStep(r, s, k, drawn), s)
    ensures Deliverable(s, r, k, drawn)
  {
    if k < |s.issued| {
      assert InEpoch(s, k);
      var t := DeliverStep(r, s, k, drawn);
      TakeKeyRefines(r.backlog, r.ratchet, k);
      assert t.backlog.stale == map[];
      forall j | 0 <= j < |t.deliveries| && !IsFirst(t, j) ensures t.deliveries[j].outcome == KeyNotFound {
        FirstsStay(r, t, t.deliveries[|r.deliveries|], j);
      }
      forall i | 0 <= i < |t.issued| ensures InEpoch(t, i) {
        assert InEpoch(r, i);
      }
    }
  }

  ghost predicate SameKeys(p: Pair, q: Pair) {
    && q.a.ratchet.localDhPublic == p.a.ratchet.localDhPublic && q.b.ratchet.localDhPublic == p.b.ratchet.localDhPublic
    && q.a.bases == p.a.bases && q.b.bases == p.b.bases
    && p.a.issued <= q.a.issued && p.b.issued <= q.b.issued
  }

  lemma StepKeepsHonest(p: Pair, e: Event)
    requires Honest(p)
    ensures Honest(Step(p, e)) && SameKeys(p, Step(p, e))
  {
    match e {
      case Send(A) => SendKeepsOneEpoch(p.a, p.b); AfterSendShape(p.a.ratchet);
      case Send(B) => SendKeepsOneEpoch(p.b, p.a); AfterSendShape(p.b.ratchet);
      case Deliver(A, k, drawn) =>
        DeliverKeepsOneEpoch(p.b, p.a, k, drawn);
        assert k < |p.b.issued| ==> InEpoch(p.b, k);
      case Deliver(B, k, drawn) =>
        DeliverKeepsOneEpoch(p.a, p.b, k, drawn);
        assert k < |p.a.issued| ==> InEpoch(p.a, k);
    }
    StepKeepsLockstep(p, e);
  }

  /** In every interleaving of sends and deliveries, however the network reorders, loses or repeats headers:
      the first delivery of a header gives the key issued with it, every other delivery throws, and each side
      keeps tracking the key its peer keeps. */
  lemma {:induction false} WholeRunAgreement(p: Pair, es: seq<Event>)
    requires Honest(p)
    ensures Honest(Run(p, es)) && SameKeys(p, Run(p, es))
    ensures Agreed(Run(p, es).a, Run(p, es).b) && Agreed(Run(p, es).b, Run(p, es).a)
  {
    if es != [] {
      WholeRunAgreement(p, es[..|es| - 1]);
      StepKeepsHonest(Run(p, es[..|es| - 1]), es[|es| - 1]);
    }
  }

  ghost predicate Agreed(s: Party, r: Party) {
    && r.ratchet.remoteDhPublic == s.ratchet.localDhPublic
    && forall j | 0 <= j < |r.deliveries| ::
        && r.deliveries[j].message < |s.issued|
        && r.deliveries[j].outcome
           == if IsFirst(r, j) then Received(s.issued[r.deliveries[j].message].key) else KeyNotFound
  }

  // ---- Exactly once ----

  ghost function DeliveredSet(s: Party, r: Party): set<int> {
    set k | 0 <= k < |s.issued| && Delivered(r.deliveries, k)
  }

  /** The backlog holds exactly the undelivered messages below the receive index; a delivery throws exactly when its
      message was delivered before, and then changes nothing. */
  lemma ExactlyOnce(s: Party, r: Party)
    requires Link(s, r) && OneEpoch(s, r)
    ensures forall i ::
      i in r.ratchet.skippedKeys <==> 0 <= i < r.ratchet.receiveChain.index && !Delivered(r.deliveries, i)
    ensures |r.ratchet.skippedKeys| + |DeliveredSet(s, r)| == r.ratchet.receiveChain.index
    ensures forall k, drawn | 0 <= k < |s.issued| ::
      var (t, outcome) := AdvanceReceive(r.ratchet, s.issued[k].header, drawn);
      && (outcome == KeyNotFound <==> Delivered(r.deliveries, k))
      && (outcome == KeyNotFound ==> t == r.ratchet)
  {
    var next := r.backlog.next;
    forall i ensures i in r.ratchet.skippedKeys <==> 0 <= i < next && !Delivered(r.deliveries, i) {
      if 0 <= i < next {
        assert InEpoch(s, i);
      }
    }
    forall k, drawn | 0 <= k < |s.issued|
      ensures var (t, outcome) := AdvanceReceive(r.ratchet, s.issued[k].header, drawn);
        && (outcome == KeyNotFound <==> Delivered(r.deliveries, k))
        && (outcome == KeyNotFound ==> t == r.ratchet)
    {
      assert InEpoch(s, k);
      TakeKeyRefines(r.backlog, r.ratchet, k);
    }
    var delivered := DeliveredSet(s, r);
    forall k | k in delivered ensures k < next {
      assert InEpoch(s, k);
    }
    assert Range(0, next) == r.ratchet.skippedKeys.Keys + delivered;
  }

  // ---- No key reuse ----

  /** A chain key that no chain produced. */
  predicate IsBase(t: Term) {
    t.Kdf? ==> t.context != DRSndKey
  }

  lemma {:induction false} ChainKeysDiffer(b: Term, m: nat, c: Term, n: nat)
    requires IsBase(b) && IsBase(c) && ChainKey(b, m) == ChainKey(c, n)
    ensures b == c && m == n
    decreases m
  {
    if m > 0 && n > 0 {
      ChainKeysDiffer(b, m - 1, c, n - 1);
    }
  }

  ghost predicate BasesDiffer(p: Pair) {
    && p.a.ratchet.localDhPublic in p.a.bases && p.b.ratchet.localDhPublic in p.b.bases
    && IsBase(p.a.bases[p.a.ratchet.localDhPublic]) && IsBase(p.b.bases[p.b.ratchet.localDhPublic])
    && p.a.bases[p.a.ratchet.localDhPublic] != p.b.bases[p.b.ratchet.localDhPublic]
  }

  lemma KeysOfOneSideDiffer(s: Party, r: Party, j: nat, k: nat)
    requires Link(s, r) && OneEpoch(s, r) && IsBase(s.bases[s.ratchet.localDhPublic])
    requires j < |s.issued| && k < |s.issued| && s.issued[j].key == s.issued[k].key
    ensures j == k
  {
    assert InEpoch(s, j) && InEpoch(s, k) && Logged(s, j) && Logged(s, k);
    var base := s.bases[s.ratchet.localDhPublic];
    ChainKeysDiffer(base, j, base, k);
  }

  /** Over a whole honest session no key is issued twice, by either side, and no message key is a chain key. */
  lemma NoKeyReuse(p: Pair, es: seq<Event>)
    requires Honest(p) && BasesDiffer(p)
    ensures var q := Run(p, es);
      && (forall j, k | 0 <= j < k < |q.a.issued| :: q.a.issued[j].key != q.a.issued[k].key)
      && (forall j, k | 0 <= j < k < |q.b.issued| :: q.b.issued[j].key != q.b.issued[k].key)
      && (forall j, k | 0 <= j < |q.a.issued| && 0 <= k < |q.b.issued| :: q.a.issued[j].key != q.b.issued[k].key)
      && (forall k, n: nat, base | 0 <= k < |q.a.issued| && IsBase(base) :: q.a.issued[k].key != ChainKey(base, n))
      && (forall k, n: nat, base | 0 <= k < |q.b.issued| && IsBase(base) :: q.b.issued[k].key != ChainKey(base, n))
  {
    WholeRunAgreement(p, es);
    var q := Run(p, es);
    forall j, k | 0 <= j < k < |q.a.issued| ensures q.a.issued[j].key != q.a.issued[k].key {
      if q.a.issued[j].key == q.a.issued[k].key { KeysOfOneSideDiffer(q.a, q.b, j, k); }
    }
    forall j, k | 0 <= j < k < |q.b.issued| ensures q.b.issued[j].key != q.b.issued[k].key {
      if q.b.issued[j].key == q.b.issued[k].key { KeysOfOneSideDiffer(q.b, q.a, j, k); }
    }
    forall j, k | 0 <= j < |q.a.issued| && 0 <= k < |q.b.issued| ensures q.a.issued[j].key != q.b.issued[k].key {
      KeysOfTwoSidesDiffer(q, j, k);
    }
    forall k | 0 <= k < |q.a.issued|
      ensures q.a.issued[k].key.Kdf? && q.a.issued[k].key.id == 0 && !IsBase(q.a.issued[k].key) {
      assert Logged(q.a, k);
    }
    forall k | 0 <= k < |q.b.issued|
      ensures q.b.issued[k].key.Kdf? && q.b.issued[k].key.id == 0 && !IsBase(q.b.issued[k].key) {
      assert Logged(q.b, k);
    }
  }

  lemma KeysOfTwoSidesDiffer(p: Pair, j: nat, k: nat)
    requires Honest(p) && BasesDiffer(p)
    requires j < |p.a.issued| && k < |p.b.issued|
    ensures p.a.issued[j].key != p.b.issued[k].key
  {
    assert InEpoch(p.a, j) && InEpoch(p.b, k) && Logged(p.a, j) && Logged(p.b, k);
    if p.a.issued[j].key == p.b.issued[k].key {
      ChainKeysDiffer(p.a.bases[p.a.ratchet.localDhPublic], j, p.b.bases[p.b.ratchet.localDhPublic], k);
    }
  }

  // ---- Where honest sessions start ----

  function StartParty(device: Term, s: State): Party {
    Party(device, s, [], map[s.localDhPublic := s.sendChain.key], [], Model(s.receiveChain.key, 0, {}, s.skippedKeys))
  }

  /** Two ratchets set up by the two ends of one handshake: each holds its own keypair and the other's public key. */
  ghost predicate Matched(a: State, b: State) {
    && OwnsKeypair(a) && OwnsKeypair(b)
    && a.remoteDhPublic == b.localDhPublic && b.remoteDhPublic == a.localDhPublic
    && a == WithInitialChains(a) && b == WithInitialChains(b) && a.reversed != b.reversed
    && a.sendChain.index == a.receiveChain.index == b.sendChain.index == b.receiveChain.index == 0
    && a.skippedKeys == map[] == b.skippedKeys
  }

  lemma MatchedChains(a: State, b: State)
    requires Matched(a, b)
    ensures DhOutput(a) == DhOutput(b) && a.rootKey == b.rootKey
    ensures a.sendChain == b.receiveChain && a.receiveChain == b.sendChain && a.sendChain != b.sendChain
  {
    DhCommutes(a.localDhPublic.seed, b.localDhPublic.seed);
  }

  lemma StartIsHonest(a: State, b: State, deviceA: Term, deviceB: Term)
    requires Matched(a, b)
    ensures Honest(Pair(StartParty(deviceA, a), StartParty(deviceB, b)))
    ensures BasesDiffer(Pair(StartParty(deviceA, a), StartParty(deviceB, b)))
  {
    MatchedChains(a, b);
    StartLink(StartParty(deviceA, a), StartParty(deviceB, b));
    StartLink(StartParty(deviceB, b), StartParty(deviceA, a));
  }

  lemma StartLink(s: Party, r: Party)
    requires s == StartParty(s.device, s.ratchet) && r == StartParty(r.device, r.ratchet)
    requires Matched(s.ratchet, r.ratchet)
    ensures Link(s, r) && OneEpoch(s, r)
  {
    MatchedChains(s.ratchet, r.ratchet);
    assert KeysAt(r.backlog.base, {}) == map[];
  }

  // ---- A session with one side ahead ----

  /** A party that has drawn its next keypair and derived its send chain from it. */
  function OneAhead(p: Party, drawn: nat): Party {
    var t := WithNewKeypair(p.ratchet, drawn);
    var base := EpochKey(DhOutput(t));
    p.(ratchet := t.(sendChain := Chain(0, base), rootKey := EpochRoot(DhOutput(t)), dueToSendNewDh := true),
       bases := p.bases[t.localDhPublic := base])
  }

  function AheadPair(a: State, b: State, deviceA: Term, deviceB: Term, drawn: nat): Pair {
    Pair(StartParty(deviceA, a), OneAhead(StartParty(deviceB, b), drawn))
  }

  lemma AheadIsLockstep(a: State, b: State, deviceA: Term, deviceB: Term, drawn: nat)
    requires Matched(a, b) && b.localDhPublic != Public(Box(drawn))
    ensures var p := AheadPair(a, b, deviceA, deviceB, drawn);
      Lockstep(p) && p.a.ratchet.remoteDhPublic != p.b.ratchet.localDhPublic
  {
    StartIsHonest(a, b, deviceA, deviceB);
    var s, r := OneAhead(StartParty(deviceB, b), drawn), StartParty(deviceA, a);
    NewKeypairIsOwned(b, drawn);
    assert s.ratchet.localDhPriv == WithNewKeypair(b, drawn).localDhPriv;
    assert ChainKey(s.bases[s.ratchet.localDhPublic], 0) == s.ratchet.sendChain.key;
    assert Link(r, s);
    assert Link(s, r);
  }

  lemma AheadSends(s: Party)
    requires Sending(s) && s.issued == []
    ensures var t := SendStep(s);
      && |t.issued| == 1 && t.issued[0].header.dhPublic == s.ratchet.localDhPublic == t.ratchet.localDhPublic
      && t.ratchet.remoteDhPublic == s.ratchet.remoteDhPublic && t.deliveries == s.deliveries
  {
    AfterSendShape(s.ratchet);
  }

  /** A first message from the side ahead. */
  lemma FirstOfNextEpoch(p: Pair, drawn: nat)
    requires Lockstep(p) && |p.b.issued| == 1 && p.a.deliveries == [] && Unseen(p.a, drawn)
    requires p.b.issued[0].header.dhPublic == p.b.ratchet.localDhPublic != p.a.ratchet.remoteDhPublic
    ensures var q := Session.Step(p, Event.Deliver(A, 0, drawn));
      && Enabled(p, Event.Deliver(A, 0, drawn)) && Lockstep(q) && q.b == p.b
      && q.a.deliveries == [Delivery(0, Received(p.b.issued[0].key))]
      && q.a.ratchet.remoteDhPublic == p.b.ratchet.localDhPublic && q.a.ratchet.localDhPublic == Public(Box(drawn))
  {
    hide Link;
    var q := Session.Step(p, Event.Deliver(A, 0, drawn));
    StepKeepsLockstep(p, Event.Deliver(A, 0, drawn));
    assert |q.a.deliveries| == 1 && q.a.deliveries[0].message == 0;
    FirstDelivery(q.b, q.a);
  }

  lemma FirstDelivery(s: Party, r: Party)
    requires Link(s, r) && |r.deliveries| == 1
    ensures r.deliveries[0].message < |s.issued|
    ensures r.deliveries[0].outcome == Received(s.issued[r.deliveries[0].message].key)
  {
    assert IsFirst(r, 0);
  }

  /** The first message of the side ahead brings the other into the new epoch, gives it the issued key, and leaves it in
      turn one epoch ahead. */
  lemma CrossingGivesKey(a: State, b: State, deviceA: Term, deviceB: Term, drawn: nat, drawnNext: nat)
    requires Matched(a, b) && b.localDhPublic != Public(Box(drawn)) && a.localDhPublic != Public(Box(drawnNext))
    ensures var p := AheadPair(a, b, deviceA, deviceB, drawn);
      var es := [Send(B), Event.Deliver(A, 0, drawnNext)];
      var q := Run(p, es);
      && AllEnabled(p, es) && Lockstep(q)
      && |q.b.issued| == 1 && q.a.deliveries == [Delivery(0, Received(q.b.issued[0].key))]
      && q.a.ratchet.remoteDhPublic == q.b.ratchet.localDhPublic != b.localDhPublic
      && q.b.ratchet.remoteDhPublic == a.localDhPublic != q.a.ratchet.localDhPublic
  {
    hide Link, Sending, Matched, SendStep, DeliverStep;
    var p := AheadPair(a, b, deviceA, deviceB, drawn);
    var es := [Send(B), Event.Deliver(A, 0, drawnNext)];
    AheadIsLockstep(a, b, deviceA, deviceB, drawn);
    AheadKeys(a, b, deviceA, deviceB, drawn);
    AheadSends(p.b);
    var m := Session.Step(p, Send(B));
    StepKeepsLockstep(p, Send(B));
    FirstOfNextEpoch(m, drawnNext);
    TwoSteps(p, Send(B), Event.Deliver(A, 0, drawnNext));
  }

  lemma AheadKeys(a: State, b: State, deviceA: Term, deviceB: Term, drawn: nat)
    requires Matched(a, b) && Lockstep(AheadPair(a, b, deviceA, deviceB, drawn))
    ensures var p := AheadPair(a, b, deviceA, deviceB, drawn);
      && Sending(p.b) && p.b.issued == [] && p.a.deliveries == [] && p.a.ratchet == a
      && p.a.bases.Keys == {a.localDhPublic} && a.remoteDhPublic == b.localDhPublic
      && p.b.ratchet.localDhPublic == Public(Box(drawn)) && p.b.ratchet.remoteDhPublic == a.localDhPublic
  {
  }

  lemma TwoSteps(p: Pair, e: Event, f: Event)
    ensures Run(p, [e, f]) == Session.Step(Session.Step(p, e), f)
    ensures Enabled(p, e) && Enabled(Session.Step(p, e), f) ==> AllEnabled(p, [e, f])
  {
    hide Session.Step, Enabled;
    var es := [e, f];
    assert es[..0] == [] && es[..1] == [e] && es[..1][..0] == [];
    assert Run(p, es[..1]) == Session.Step(p, e);
  }
}
