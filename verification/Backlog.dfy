/** Within one epoch the receive loop and its backlog behave like random access into the chain,
    whatever the order of delivery and whatever earlier epochs left in the backlog. */
module Backlog {
  import opened Crypto
  import opened Ratchet

  /** base: the chain key of index 0; missing: indices below next not received yet;
      stale: entries the backlog holds that do not belong to this epoch. */
  datatype Model = Model(base: Term, next: nat, missing: set<int>, stale: map<int, Term>)

  function KeysAt(base: Term, indices: set<int>): map<int, Term> {
    map i | i in indices :: MessageKeyAt(base, i)
  }

  function Stored(m: Model): map<int, Term> {
    m.stale + KeysAt(m.base, m.missing)
  }

  ghost predicate Bounded(m: Model) {
    forall i | i in m.missing :: 0 <= i < m.next
  }

  ghost predicate Represents(m: Model, s: State) {
    && s.receiveChain == Chain(m.next, ChainKey(m.base, m.next))
    && Bounded(m)
    && m.missing !! m.stale.Keys
    && s.skippedKeys == Stored(m)
  }

  function Range(lo: int, hi: int): (r: set<int>)
    ensures forall i :: i in r <==> lo <= i < hi
    ensures |r| == if lo <= hi then hi - lo else 0
    decreases hi - lo
  {
    if hi <= lo then {} else Range(lo, hi - 1) + {hi - 1}
  }

  predicate IsOpen(m: Model, n: int) {
    n in m.missing || m.next <= n
  }

  /** Random access: an open index yields its own key, and any other index at most a stale entry. */
  function Deliver(m: Model, n: int): (Model, Outcome) {
    if n in m.missing then (m.(missing := m.missing - {n}), Received(MessageKeyAt(m.base, n)))
    else if m.next <= n then
      var passed := Range(m.next, n);
      (m.(next := n + 1, missing := m.missing + passed, stale := m.stale - passed), Received(MessageKeyAt(m.base, n)))
    else if n in m.stale then (m.(stale := m.stale - {n}), Received(m.stale[n]))
    else (m, KeyNotFound)
  }

  lemma KeyFromBase(base: Term, next: nat, i: int)
    requires next <= i
    ensures KeyFrom(ChainKey(base, next), next, i) == MessageKeyAt(base, i)
  {
    hide ChainKey;
    ChainKeyAdds(base, next, i - next);
  }

  lemma RangeFromBase(base: Term, next: nat, hi: int)
    ensures SkippedRange(ChainKey(base, next), next, hi) == KeysAt(base, Range(next, hi))
  {
    forall i | next <= i < hi
      ensures SkippedRange(ChainKey(base, next), next, hi)[i] == MessageKeyAt(base, i)
    {
      KeyFromBase(base, next, i);
    }
  }

  /** Storing the keys of `passed` makes those indices missing, and no longer stale. */
  lemma StoredAfterPassing(base: Term, missing: set<int>, stale: map<int, Term>, passed: set<int>)
    ensures stale + KeysAt(base, missing) + KeysAt(base, passed) == (stale - passed) + KeysAt(base, missing + passed)
  {
  }

  lemma RunPastRefines(m: Model, s: State, n: int)
    requires Represents(m, s) && m.next <= n
    ensures TakeKey(s, n).1 == Deliver(m, n).1
    ensures Represents(Deliver(m, n).0, TakeKey(s, n).0)
  {
    hide KeysAt, SkippedRange, ChainKey, MessageKeyAt, KeyFrom;
    var m' := Deliver(m, n).0;
    var passed := Range(m.next, n);
    assert n !in m.missing;
    assert m' == m.(next := n + 1, missing := m.missing + passed, stale := m.stale - passed);
    assert TakeKey(s, n).0.skippedKeys == Stored(m') by {
      RangeFromBase(m.base, m.next, n);
      StoredAfterPassing(m.base, m.missing, m.stale, passed);
    }
    assert TakeKey(s, n).0.receiveChain == Chain(n + 1, ChainKey(m.base, n + 1)) by {
      ChainKeyAdds(m.base, m.next, n + 1 - m.next);
    }
    KeyFromBase(m.base, m.next, n);
  }

  lemma LookUpRefines(m: Model, s: State, n: int)
    requires Represents(m, s) && n < m.next
    ensures TakeKey(s, n).1 == Deliver(m, n).1
    ensures Represents(Deliver(m, n).0, TakeKey(s, n).0)
  {
    var m' := Deliver(m, n).0;
    assert Stored(m') == Stored(m) - {n};
  }

  /** The loop and the backlog refine random access. */
  lemma TakeKeyRefines(m: Model, s: State, n: int)
    requires Represents(m, s)
    ensures TakeKey(s, n).1 == Deliver(m, n).1
    ensures Represents(Deliver(m, n).0, TakeKey(s, n).0)
  {
    if m.next <= n {
      RunPastRefines(m, s, n);
    } else {
      LookUpRefines(m, s, n);
    }
  }

  // ---- Whole delivery orders ----

  /** The outcomes of receiving, in this order, headers that all carry the tracked key. */
  function ReceiveAll(s: State, hs: seq<Header>): (State, seq<Outcome>) {
    if hs == [] then (s, [])
    else
      var last := |hs| - 1;
      var (t, outcomes) := ReceiveAll(s, hs[..last]);
      var (u, outcome) := AdvanceReceive(t, hs[last], 0);
      (u, outcomes + [outcome])
  }

  function DeliverAll(m: Model, hs: seq<Header>): Model {
    if hs == [] then m else Deliver(DeliverAll(m, hs[..|hs| - 1]), hs[|hs| - 1].messageIndex).0
  }

  predicate SeenIn(hs: seq<Header>, n: int) {
    exists j | 0 <= j < |hs| :: hs[j].messageIndex == n
  }

  ghost predicate AllTracked(s: State, hs: seq<Header>) {
    forall j | 0 <= j < |hs| :: hs[j].dhPublic == s.remoteDhPublic
  }

  lemma ReceiveRefines(m: Model, s: State, h: Header)
    requires Represents(m, s) && h.dhPublic == s.remoteDhPublic
    ensures AdvanceReceive(s, h, 0).0.remoteDhPublic == s.remoteDhPublic
    ensures AdvanceReceive(s, h, 0).1 == Deliver(m, h.messageIndex).1
    ensures Represents(Deliver(m, h.messageIndex).0, AdvanceReceive(s, h, 0).0)
  {
    hide Represents, Deliver;
    TakeKeyRefines(m, s, h.messageIndex);
  }

  lemma {:induction false} ReceiveAllRefines(m: Model, s: State, hs: seq<Header>)
    requires Represents(m, s) && AllTracked(s, hs)
    ensures Represents(DeliverAll(m, hs), ReceiveAll(s, hs).0)
    ensures ReceiveAll(s, hs).0.remoteDhPublic == s.remoteDhPublic
    ensures |ReceiveAll(s, hs).1| == |hs|
    ensures forall k | 0 <= k < |hs| ::
      ReceiveAll(s, hs).1[k] == Deliver(DeliverAll(m, hs[..k]), hs[k].messageIndex).1
  {
    hide Represents, Deliver, AdvanceReceive;
    if hs != [] {
      var last := |hs| - 1;
      ReceiveAllRefines(m, s, hs[..last]);
      ReceiveRefines(DeliverAll(m, hs[..last]), ReceiveAll(s, hs[..last]).0, hs[last]);
      forall k | 0 <= k < last ensures hs[..last][..k] == hs[..k] {
      }
    }
  }

  lemma SeenInLast(hs: seq<Header>, n: int)
    requires hs != []
    ensures SeenIn(hs, n) <==> SeenIn(hs[..|hs| - 1], n) || hs[|hs| - 1].messageIndex == n
  {
    var last := |hs| - 1;
    if SeenIn(hs, n) && hs[last].messageIndex != n {
      var j :| 0 <= j < |hs| && hs[j].messageIndex == n;
      assert hs[..last][j].messageIndex == n;
    }
    if SeenIn(hs[..last], n) {
      var j :| 0 <= j < last && hs[..last][j].messageIndex == n;
      assert hs[j].messageIndex == n;
    }
  }

  /** A delivery closes its own index and no other. */
  lemma DeliverCloses(m: Model, i: int, n: int)
    requires Bounded(m) && 0 <= n
    ensures Bounded(Deliver(m, i).0)
    ensures IsOpen(Deliver(m, i).0, n) <==> IsOpen(m, n) && n != i
  {
  }

  /** From the start of an epoch, an index is open until it has been delivered. */
  lemma {:induction false} OpenUntilSeen(m: Model, hs: seq<Header>, n: int)
    requires m.next == 0 && m.missing == {} && 0 <= n
    ensures Bounded(DeliverAll(m, hs)) && DeliverAll(m, hs).base == m.base
    ensures IsOpen(DeliverAll(m, hs), n) <==> !SeenIn(hs, n)
  {
    if hs != [] {
      var last := |hs| - 1;
      OpenUntilSeen(m, hs[..last], n);
      SeenInLast(hs, n);
      DeliverCloses(DeliverAll(m, hs[..last]), hs[last].messageIndex, n);
    }
  }

  /** Every first delivery in an epoch yields the key of its index, in any order and over any stale backlog. */
  lemma OutOfOrder(m: Model, s: State, hs: seq<Header>, k: nat)
    requires Represents(m, s) && m.next == 0 && m.missing == {}
    requires AllTracked(s, hs)
    requires k < |hs| && 0 <= hs[k].messageIndex && !SeenIn(hs[..k], hs[k].messageIndex)
    ensures |ReceiveAll(s, hs).1| == |hs|
    ensures ReceiveAll(s, hs).1[k] == Received(MessageKeyAt(m.base, hs[k].messageIndex))
  {
    ReceiveAllRefines(m, s, hs);
    OpenUntilSeen(m, hs[..k], hs[k].messageIndex);
  }

  // ---- Replays ----

  /** Every delivery of an index already delivered in this epoch throws. */
  ghost predicate ReplaysThrow(s: State, hs: seq<Header>) {
    forall k | 0 <= k < |hs| && SeenIn(hs[..k], hs[k].messageIndex) :: Outcomes(s, hs)[k] == KeyNotFound
  }

  ghost function Outcomes(s: State, hs: seq<Header>): (o: seq<Outcome>)
    ensures |o| == |hs|
  {
    OutcomesLength(s, hs);
    ReceiveAll(s, hs).1
  }

  lemma OutcomesLength(s: State, hs: seq<Header>)
    ensures |ReceiveAll(s, hs).1| == |hs|
  {
    if hs != [] {
      OutcomesLength(s, hs[..|hs| - 1]);
    }
  }

  lemma {:induction false} StaleShrinks(m: Model, hs: seq<Header>, n: int)
    requires m.missing == {} && m.next == 0
    ensures n in DeliverAll(m, hs).stale ==> n in m.stale
    ensures n < 0 ==> n !in DeliverAll(m, hs).missing
    ensures n < 0 && SeenIn(hs, n) ==> n !in DeliverAll(m, hs).stale
  {
    if hs != [] {
      StaleShrinks(m, hs[..|hs| - 1], n);
      SeenInLast(hs, n);
    }
  }

  /** Replays throw for every delivery order if and only if no stale entry has a message's index. */
  lemma ReplaysThrowExactly(m: Model, s: State)
    requires Represents(m, s) && m.next == 0 && m.missing == {}
    ensures (forall hs: seq<Header> | AllTracked(s, hs) :: ReplaysThrow(s, hs)) <==> (forall n | n in m.stale :: n < 0)
  {
    if forall n | n in m.stale :: n < 0 {
      forall hs: seq<Header> | AllTracked(s, hs) ensures ReplaysThrow(s, hs) {
        forall k | 0 <= k < |hs| && SeenIn(hs[..k], hs[k].messageIndex)
          ensures Outcomes(s, hs)[k] == KeyNotFound
        {
          ReplayThrows(m, s, hs, k);
        }
      }
    } else {
      var n :| n in m.stale && 0 <= n;
      StaleReplay(m, s, n);
      var h := Header(s.remoteDhPublic, 0, n, NO_DEVICE, "");
      assert AllTracked(s, [h, h]) && !ReplaysThrow(s, [h, h]);
    }
  }

  lemma ReplayThrows(m: Model, s: State, hs: seq<Header>, k: nat)
    requires Represents(m, s) && m.next == 0 && m.missing == {}
    requires AllTracked(s, hs) && k < |hs| && SeenIn(hs[..k], hs[k].messageIndex)
    requires hs[k].messageIndex in m.stale ==> hs[k].messageIndex < 0
    ensures Outcomes(s, hs)[k] == KeyNotFound
  {
    var n := hs[k].messageIndex;
    ReceiveAllRefines(m, s, hs);
    StaleShrinks(m, hs[..k], n);
    if 0 <= n {
      OpenUntilSeen(m, hs[..k], n);
    }
  }

  lemma DeliveredTwice(m: Model, s: State, h: Header)
    requires Represents(m, s) && h.dhPublic == s.remoteDhPublic
    ensures var (after, first) := Deliver(m, h.messageIndex);
      Outcomes(s, [h, h]) == [first, Deliver(after, h.messageIndex).1]
  {
    hide Represents, Deliver, ReceiveAll;
    var hs := [h, h];
    assert hs[..1] == [h] && [h][..0] == [] && hs[..0] == [];
    ReceiveAllRefines(m, s, hs);
    assert DeliverAll(m, hs[..0]) == m;
    assert DeliverAll(m, hs[..1]) == Deliver(m, h.messageIndex).0;
    assert Outcomes(s, hs)[0] == Deliver(m, h.messageIndex).1;
  }

  /** A stale entry at index n is handed out when message n is delivered a second time. */
  lemma StaleReplay(m: Model, s: State, n: int)
    requires Represents(m, s) && m.next == 0 && m.missing == {}
    requires n in m.stale && 0 <= n
    ensures var h := Header(s.remoteDhPublic, 0, n, NO_DEVICE, "");
      && AllTracked(s, [h, h]) && !ReplaysThrow(s, [h, h])
      && Outcomes(s, [h, h]) == [Received(MessageKeyAt(m.base, n)), Received(m.stale[n])]
  {
    hide Represents, Outcomes, MessageKeyAt;
    var h := Header(s.remoteDhPublic, 0, n, NO_DEVICE, "");
    var hs := [h, h];
    DeliveredTwice(m, s, h);
    assert hs[..1][0].messageIndex == n;
    assert SeenIn(hs[..1], hs[1].messageIndex);
    assert Outcomes(s, hs)[1] == Received(m.stale[n]);
  }

  /** Entering an epoch leaves every key that is outstanding in the backlog, where the new epoch finds it stale. */
  lemma OutstandingGoStale(s: State, h: Header, drawn: nat)
    requires h.dhPublic != s.remoteDhPublic
    ensures var t := EnterEpoch(s, h, drawn);
      && Represents(Model(t.receiveChain.key, 0, {}, t.skippedKeys), t)
      && s.skippedKeys.Keys <= t.skippedKeys.Keys
  {
    var t := EnterEpoch(s, h, drawn);
    assert KeysAt(t.receiveChain.key, {}) == map[];
  }

  /** From any ratchet that has received nothing: message 1 before message 0, then an unseen key, and message 0 of the
      new epoch twice. The second time it gives the key of message 0 of the old epoch. */
  lemma StaleReplayReached(s: State, key: Term, drawn: nat)
    requires s.receiveChain.index == 0 && s.skippedKeys == map[] && key != s.remoteDhPublic
    ensures var late := AdvanceReceive(s, Header(s.remoteDhPublic, 0, 1, NO_DEVICE, ""), drawn).0;
      var t := EnterEpoch(late, Header(key, 2, 0, NO_DEVICE, ""), drawn);
      var h := Header(key, 0, 0, NO_DEVICE, "");
      && Outcomes(t, [h, h])
         == [Received(MessageKeyAt(t.receiveChain.key, 0)), Received(MessageKeyAt(s.receiveChain.key, 0))]
  {
    var late := AdvanceReceive(s, Header(s.remoteDhPublic, 0, 1, NO_DEVICE, ""), drawn).0;
    var h := Header(key, 2, 0, NO_DEVICE, "");
    var t := EnterEpoch(late, h, drawn);
    OutstandingGoStale(late, h, drawn);
    assert late.skippedKeys == map[0 := MessageKeyAt(s.receiveChain.key, 0)];
    assert t.skippedKeys == late.skippedKeys;
    StaleReplay(Model(t.receiveChain.key, 0, {}, t.skippedKeys), t, 0);
  }
}
