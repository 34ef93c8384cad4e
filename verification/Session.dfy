/** Two ratchets and a network that may reorder, lose and duplicate headers. */
module Session {
  import opened Crypto
  import opened Ratchet
  import Backlog

  datatype Issue = Issue(key: Term, header: Header)

  datatype Delivery = Delivery(message: nat, outcome: Outcome)

  /** A ratchet with its history: what it issued, the base key of each epoch it has sent in (by the public key
      of that epoch), what was delivered to it, and the random-access view of the epoch it receives in. */
  datatype Party = Party(
    device: Term, ratchet: State, issued: seq<Issue>, bases: map<Term, Term>,
    deliveries: seq<Delivery>, backlog: Backlog.Model)

  datatype Side = A | B

  datatype Pair = Pair(a: Party, b: Party)

  datatype Event = Send(from: Side) | Deliver(to: Side, message: nat, drawn: nat)

  // ---- Steps ----

  function SendStep(p: Party): Party {
    p.(ratchet := AfterSend(p.ratchet),
       issued := p.issued + [Issue(SentKey(p.ratchet), SentHeader(p.ratchet).(deviceId := p.device))])
  }

  function EnterStep(p: Party, h: Header, drawn: nat): Party {
    if h.dhPublic == p.ratchet.remoteDhPublic then p
    else
      var t := EnterEpoch(p.ratchet, h, drawn);
      p.(ratchet := t,
         bases := p.bases[t.localDhPublic := t.sendChain.key],
         backlog := Backlog.Model(t.receiveChain.key, 0, {}, t.skippedKeys))
  }

  function TakeStep(p: Party, message: nat, n: int): Party {
    p.(ratchet := TakeKey(p.ratchet, n).0,
       backlog := Backlog.Deliver(p.backlog, n).0,
       deliveries := p.deliveries + [Delivery(message, TakeKey(p.ratchet, n).1)])
  }

  function DeliverStep(r: Party, s: Party, message: nat, drawn: nat): Party {
    if message < |s.issued| then
      var h := s.issued[message].header;
      TakeStep(EnterStep(r, h, drawn), message, h.messageIndex)
    else r
  }

  function Step(p: Pair, e: Event): Pair {
    match e
    case Send(A) => p.(a := SendStep(p.a))
    case Send(B) => p.(b := SendStep(p.b))
    case Deliver(A, k, drawn) => p.(a := DeliverStep(p.a, p.b, k, drawn))
    case Deliver(B, k, drawn) => p.(b := DeliverStep(p.b, p.a, k, drawn))
  }

  function Run(p: Pair, es: seq<Event>): Pair {
    if es == [] then p else Step(Run(p, es[..|es| - 1]), es[|es| - 1])
  }

  /** The history adds nothing: the ratchet of a delivery step is the one advance_receive leaves. */
  lemma DeliverStepIsReceive(r: Party, s: Party, k: nat, drawn: nat)
    requires k < |s.issued|
    ensures var (t, outcome) := AdvanceReceive(r.ratchet, s.issued[k].header, drawn);
      var r' := DeliverStep(r, s, k, drawn);
      && r'.ratchet == t && r'.deliveries == r.deliveries + [Delivery(k, outcome)]
      && r'.device == r.device && r'.issued == r.issued
  {
  }

  // ---- The invariant of one direction ----

  predicate Delivered(deliveries: seq<Delivery>, k: nat) {
    exists j | 0 <= j < |deliveries| :: deliveries[j].message == k
  }

  /** The j-th delivery is the first of its message. */
  ghost predicate IsFirst(r: Party, j: nat)
    requires j < |r.deliveries|
  {
    forall i | 0 <= i < j :: r.deliveries[i].message != r.deliveries[j].message
  }

  ghost predicate OwnsKeypair(s: State) {
    s.localDhPublic.Public? && Scalar(s) == Secret(s.localDhPublic.seed)
  }

  /** The sender's chain and log agree with the base keys of its epochs. */
  ghost predicate Sending(s: Party) {
    && OwnsKeypair(s.ratchet) && DueIsDerived(s.ratchet)
    && s.ratchet.localDhPublic in s.bases
    && 0 <= s.ratchet.sendChain.index
    && s.ratchet.sendChain.key == ChainKey(s.bases[s.ratchet.localDhPublic], s.ratchet.sendChain.index)
    && (forall k | 0 <= k < |s.issued| :: Logged(s, k))
    && (forall j, k | 0 <= j < k < |s.issued| :: Distinct(s.issued[j].header, s.issued[k].header))
  }

  ghost predicate Logged(s: Party, k: nat)
    requires k < |s.issued|
  {
    var h := s.issued[k].header;
    && h.dhPublic in s.bases && 0 <= h.messageIndex
    && s.issued[k].key == MessageKeyAt(s.bases[h.dhPublic], h.messageIndex)
    && (h.dhPublic == s.ratchet.localDhPublic ==> h.messageIndex < s.ratchet.sendChain.index)
  }

  predicate Distinct(g: Header, h: Header) {
    g.dhPublic != h.dhPublic || g.messageIndex != h.messageIndex
  }

  /** The receiver tracks an epoch of the sender, and has consumed exactly the messages delivered from it. */
  ghost predicate Tracking(s: Party, r: Party) {
    && r.ratchet.remoteDhPublic in s.bases
    && r.backlog.base == s.bases[r.ratchet.remoteDhPublic]
    && Backlog.Represents(r.backlog, r.ratchet)
    && (r.ratchet.remoteDhPublic == s.ratchet.localDhPublic ==> r.backlog.next <= s.ratchet.sendChain.index)
    && (forall k | 0 <= k < |s.issued| && s.issued[k].header.dhPublic == r.ratchet.remoteDhPublic ::
          Delivered(r.deliveries, k) <==> !Backlog.IsOpen(r.backlog, s.issued[k].header.messageIndex))
  }

  /** If the receiver tracks an earlier epoch, the sender is one epoch ahead: its chain is derived from
      its own key and the receiver's current one, and nothing of it has been delivered. */
  ghost predicate AtMostOneAhead(s: Party, r: Party) {
    r.ratchet.remoteDhPublic != s.ratchet.localDhPublic ==>
      && s.ratchet.localDhPublic in s.bases
      && s.ratchet.remoteDhPublic == r.ratchet.localDhPublic
      && s.bases[s.ratchet.localDhPublic] == EpochKey(DhOutput(s.ratchet))
      && forall k | 0 <= k < |s.issued| && s.issued[k].header.dhPublic == s.ratchet.localDhPublic ::
           !Delivered(r.deliveries, k)
  }

  /** Every first delivery gave the key that was issued with that header. */
  ghost predicate FirstsAgree(s: Party, r: Party) {
    forall j | 0 <= j < |r.deliveries| ::
      && r.deliveries[j].message < |s.issued|
      && (IsFirst(r, j) ==> r.deliveries[j].outcome == Received(s.issued[r.deliveries[j].message].key))
  }

  ghost predicate Link(s: Party, r: Party) {
    Sending(s) && Tracking(s, r) && AtMostOneAhead(s, r) && FirstsAgree(s, r)
  }

  /** Each direction is matched or one epoch ahead, and never both are ahead. */
  ghost predicate Lockstep(p: Pair) {
    Link(p.a, p.b) && Link(p.b, p.a)
  }

  lemma NeverBothAhead(p: Pair)
    requires Lockstep(p)
    ensures
      p.a.ratchet.remoteDhPublic == p.b.ratchet.localDhPublic || p.b.ratchet.remoteDhPublic == p.a.ratchet.localDhPublic
  {
  }

  // ---- Sending keeps it ----

  lemma AfterSendShape(s: State)
    requires DueIsDerived(s)
    ensures AfterSend(s) ==
      s.(dueToSendNewDh := false, sendChain := Chain(s.sendChain.index + 1, NextKey(s.sendChain.key)))
    ensures SentKey(s) == MessageKey(s.sendChain.key)
    ensures SentHeader(s) == Header(s.localDhPublic, s.receiveChain.index, s.sendChain.index, NO_DEVICE, "")
  {
  }

  lemma SendKeepsSending(s: Party)
    requires Sending(s)
    ensures Sending(SendStep(s))
  {
    AfterSendShape(s.ratchet);
    var t := SendStep(s);
    forall k | 0 <= k < |t.issued| ensures Logged(t, k) {
      if k < |s.issued| {
        assert Logged(s, k) && t.issued[k] == s.issued[k];
      }
    }
    forall j, k | 0 <= j < k < |t.issued| ensures Distinct(t.issued[j].header, t.issued[k].header) {
      assert Logged(s, j);
    }
  }

  lemma SendKeepsLinks(s: Party, r: Party)
    requires Link(s, r) && Link(r, s)
    ensures Link(SendStep(s), r) && Link(r, SendStep(s))
  {
    AfterSendShape(s.ratchet);
    SendKeepsSending(s);
    var t, last := SendStep(s), |s.issued|;
    assert !Delivered(r.deliveries, last);
    assert Tracking(t, r);
    assert FirstsAgree(t, r);
  }

  // ---- Receiving in the tracked epoch ----

  lemma DeliveredAfter(r: Party, t: Party, d: Delivery, k: nat)
    requires t.deliveries == r.deliveries + [d]
    ensures Delivered(t.deliveries, k) <==> Delivered(r.deliveries, k) || k == d.message
  {
    if Delivered(r.deliveries, k) {
      var j :| 0 <= j < |r.deliveries| && r.deliveries[j].message == k;
      assert t.deliveries[j].message == k;
    }
    assert t.deliveries[|r.deliveries|] == d;
  }

  lemma TakeKeepsTracking(s: Party, r: Party, k: nat)
    requires Sending(s) && Tracking(s, r)
    requires k < |s.issued| && s.issued[k].header.dhPublic == r.ratchet.remoteDhPublic
    ensures Tracking(s, TakeStep(r, k, s.issued[k].header.messageIndex))
  {
    var n := s.issued[k].header.messageIndex;
    var t := TakeStep(r, k, n);
    Backlog.TakeKeyRefines(r.backlog, r.ratchet, n);
    assert Logged(s, k);
    forall i | 0 <= i < |s.issued| && s.issued[i].header.dhPublic == r.ratchet.remoteDhPublic
      ensures Delivered(t.deliveries, i) <==> !Backlog.IsOpen(t.backlog, s.issued[i].header.messageIndex)
    {
      assert Logged(s, i);
      assert i != k ==> Distinct(s.issued[i].header, s.issued[k].header);
      DeliveredAfter(r, t, t.deliveries[|r.deliveries|], i);
      Backlog.DeliverCloses(r.backlog, n, s.issued[i].header.messageIndex);
    }
  }

  lemma TakeKeepsFirsts(s: Party, r: Party, k: nat)
    requires Sending(s) && Tracking(s, r) && FirstsAgree(s, r)
    requires k < |s.issued| && s.issued[k].header.dhPublic == r.ratchet.remoteDhPublic
    ensures FirstsAgree(s, TakeStep(r, k, s.issued[k].header.messageIndex))
  {
    var t := TakeStep(r, k, s.issued[k].header.messageIndex);
    if !Delivered(r.deliveries, k) {
      FirstTakeAgrees(s, r, k);
    }
    forall j | 0 <= j < |t.deliveries|
      ensures t.deliveries[j].message < |s.issued|
      ensures IsFirst(t, j) ==> t.deliveries[j].outcome == Received(s.issued[t.deliveries[j].message].key)
    {
      FirstsStay(r, t, t.deliveries[|r.deliveries|], j);
    }
  }

  lemma FirstTakeAgrees(s: Party, r: Party, k: nat)
    requires Sending(s) && Tracking(s, r) && !Delivered(r.deliveries, k)
    requires k < |s.issued| && s.issued[k].header.dhPublic == r.ratchet.remoteDhPublic
    ensures TakeKey(r.ratchet, s.issued[k].header.messageIndex).1 == Received(s.issued[k].key)
  {
    assert Logged(s, k);
    Backlog.TakeKeyRefines(r.backlog, r.ratchet, s.issued[k].header.messageIndex);
  }

  /** Earlier deliveries stay what they were, and a last one that is first was never delivered before. */
  lemma FirstsStay(r: Party, t: Party, d: Delivery, j: nat)
    requires t.deliveries == r.deliveries + [d] && j < |t.deliveries|
    ensures j < |r.deliveries| ==> t.deliveries[j] == r.deliveries[j] && IsFirst(t, j) == IsFirst(r, j)
    ensures j == |r.deliveries| ==> t.deliveries[j] == d && IsFirst(t, j) == !Delivered(r.deliveries, d.message)
  {
    assert forall i | 0 <= i < |r.deliveries| :: t.deliveries[i] == r.deliveries[i];
  }

  lemma TakeKeepsLinks(s: Party, r: Party, k: nat)
    requires Link(s, r) && Link(r, s)
    requires k < |s.issued| && s.issued[k].header.dhPublic == r.ratchet.remoteDhPublic
    ensures Link(s, TakeStep(r, k, s.issued[k].header.messageIndex))
    ensures Link(TakeStep(r, k, s.issued[k].header.messageIndex), s)
  {
    hide TakeStep, Sending, Tracking, AtMostOneAhead, FirstsAgree;
    var n := s.issued[k].header.messageIndex;
    TakeKeepsTracking(s, r, k);
    TakeKeepsFirsts(s, r, k);
    TakeStepShape(r, k, n);
    TakeKeepsAhead(s, r, k, TakeStep(r, k, n));
    TakeKeepsSending(r, s, TakeStep(r, k, n));
  }

  lemma TakeStepShape(r: Party, k: nat, n: int)
    ensures var t := TakeStep(r, k, n);
      && t.ratchet == r.ratchet.(receiveChain := t.ratchet.receiveChain, skippedKeys := t.ratchet.skippedKeys)
      && t.issued == r.issued && t.bases == r.bases
      && |t.deliveries| == |r.deliveries| + 1
      && t.deliveries == r.deliveries + [t.deliveries[|r.deliveries|]] && t.deliveries[|r.deliveries|].message == k
  {
  }

  /** A message of the epoch that is tracked is none of the epoch ahead. */
  lemma TakeKeepsAhead(s: Party, r: Party, k: nat, t: Party)
    requires AtMostOneAhead(s, r)
    requires k < |s.issued| && s.issued[k].header.dhPublic == r.ratchet.remoteDhPublic
    requires t.ratchet == r.ratchet.(receiveChain := t.ratchet.receiveChain, skippedKeys := t.ratchet.skippedKeys)
    requires |t.deliveries| == |r.deliveries| + 1
    requires t.deliveries == r.deliveries + [t.deliveries[|r.deliveries|]] && t.deliveries[|r.deliveries|].message == k
    ensures AtMostOneAhead(s, t)
  {
    hide Delivered;
    forall i | 0 <= i < |s.issued| && s.issued[i].header.dhPublic == s.ratchet.localDhPublic
        && s.ratchet.localDhPublic != r.ratchet.remoteDhPublic
      ensures !Delivered(t.deliveries, i)
    {
      DeliveredAfter(r, t, t.deliveries[|r.deliveries|], i);
    }
  }

  /** What a party has sent does not depend on what it takes from its receive chain. */
  lemma TakeKeepsSending(r: Party, s: Party, t: Party)
    requires Link(r, s)
    requires t.ratchet == r.ratchet.(receiveChain := t.ratchet.receiveChain, skippedKeys := t.ratchet.skippedKeys)
    requires t.issued == r.issued && t.bases == r.bases
    ensures Link(t, s)
  {
    forall k | 0 <= k < |t.issued| ensures Logged(t, k) {
      assert Logged(r, k);
    }
  }

  // ---- Entering the sender's next epoch ----

  ghost predicate Unseen(r: Party, drawn: nat) {
    Public(Box(drawn)) !in r.bases
  }

  lemma EnterDerivesSameBase(s: Party, r: Party, h: Header, drawn: nat)
    requires Link(s, r) && OwnsKeypair(r.ratchet)
    requires h.dhPublic == s.ratchet.localDhPublic != r.ratchet.remoteDhPublic
    ensures EnterEpoch(r.ratchet, h, drawn).receiveChain == Chain(0, s.bases[s.ratchet.localDhPublic])
  {
    DhCommutes(r.ratchet.localDhPublic.seed, s.ratchet.localDhPublic.seed);
  }

  lemma EnterKeepsReceiving(s: Party, r: Party, h: Header, drawn: nat)
    requires Link(s, r) && OwnsKeypair(r.ratchet)
    requires h.dhPublic == s.ratchet.localDhPublic != r.ratchet.remoteDhPublic
    ensures Link(s, EnterStep(r, h, drawn))
  {
    var t := EnterStep(r, h, drawn);
    EnterDerivesSameBase(s, r, h, drawn);
    forall k | 0 <= k < |s.issued| && s.issued[k].header.dhPublic == t.ratchet.remoteDhPublic
      ensures Delivered(t.deliveries, k) <==> !Backlog.IsOpen(t.backlog, s.issued[k].header.messageIndex)
    {
      assert Logged(s, k);
      assert Delivered(t.deliveries, k) == Delivered(r.deliveries, k);
    }
    assert Backlog.Represents(t.backlog, t.ratchet) by {
      assert Backlog.KeysAt(t.backlog.base, {}) == map[];
    }
    assert t.deliveries == r.deliveries;
    assert forall j | 0 <= j < |t.deliveries| :: IsFirst(t, j) == IsFirst(r, j);
  }

  lemma NewKeypairIsOwned(s: State, drawn: nat)
    ensures OwnsKeypair(WithNewKeypair(s, drawn))
  {
    var secret := Bytes(Secret(Box(drawn)), KEY_LENGTH);
    assert WithNewKeypair(s, drawn).localDhPriv[..KEY_LENGTH] == secret;
    WordOfBytes(Secret(Box(drawn)), KEY_LENGTH);
  }

  lemma EnterKeepsSending(r: Party, h: Header, drawn: nat)
    requires Sending(r) && Unseen(r, drawn) && h.dhPublic != r.ratchet.remoteDhPublic
    ensures Sending(EnterStep(r, h, drawn))
  {
    var t := EnterStep(r, h, drawn);
    NewKeypairIsOwned(r.ratchet, drawn);
    assert t.ratchet.localDhPriv == WithNewKeypair(r.ratchet, drawn).localDhPriv;
    forall k | 0 <= k < |t.issued| ensures Logged(t, k) {
      assert Logged(r, k);
    }
    assert t.bases[t.ratchet.localDhPublic] == t.ratchet.sendChain.key;
  }

  lemma EnterPutsAhead(r: Party, s: Party, h: Header, drawn: nat)
    requires Link(r, s) && Unseen(r, drawn) && s.ratchet.remoteDhPublic == r.ratchet.localDhPublic
    requires h.dhPublic == s.ratchet.localDhPublic != r.ratchet.remoteDhPublic
    ensures Link(EnterStep(r, h, drawn), s)
  {
    var t := EnterStep(r, h, drawn);
    EnterKeepsSending(r, h, drawn);
    assert t.ratchet.localDhPublic == Public(Box(drawn));
    assert t.bases[s.ratchet.remoteDhPublic] == r.bases[s.ratchet.remoteDhPublic];
    assert t.bases[t.ratchet.localDhPublic] == EpochKey(DhOutput(t.ratchet));
    forall k | 0 <= k < |t.issued| ensures t.issued[k].header.dhPublic != t.ratchet.localDhPublic {
      assert Logged(r, k);
    }
  }

  // ---- Runs ----

  ghost predicate Deliverable(s: Party, r: Party, k: nat, drawn: nat) {
    k < |s.issued| ==>
      var key := s.issued[k].header.dhPublic;
      key == r.ratchet.remoteDhPublic || (key == s.ratchet.localDhPublic && Unseen(r, drawn))
  }

  /** Deliveries carry the sender's current key or the key the receiver tracks, and drawn keypairs are new. */
  ghost predicate Enabled(p: Pair, e: Event) {
    match e
    case Send(_) => true
    case Deliver(A, k, drawn) => Deliverable(p.b, p.a, k, drawn)
    case Deliver(B, k, drawn) => Deliverable(p.a, p.b, k, drawn)
  }

  lemma DeliverKeepsLinks(s: Party, r: Party, k: nat, drawn: nat)
    requires Link(s, r) && Link(r, s) && Deliverable(s, r, k, drawn)
    ensures Link(s, DeliverStep(r, s, k, drawn)) && Link(DeliverStep(r, s, k, drawn), s)
  {
    if k < |s.issued| {
      var h := s.issued[k].header;
      if h.dhPublic != r.ratchet.remoteDhPublic {
        EnterKeepsReceiving(s, r, h, drawn);
        EnterPutsAhead(r, s, h, drawn);
      }
      TakeKeepsLinks(s, EnterStep(r, h, drawn), k);
    }
  }

  /** Every send, and every delivery from the sender's current epoch or the receiver's tracked one, keeps lockstep. */
  lemma StepKeepsLockstep(p: Pair, e: Event)
    requires Lockstep(p) && Enabled(p, e)
    ensures Lockstep(Step(p, e))
  {
    match e
    case Send(A) => SendKeepsLinks(p.a, p.b);
    case Send(B) => SendKeepsLinks(p.b, p.a);
    case Deliver(A, k, drawn) => DeliverKeepsLinks(p.b, p.a, k, drawn);
    case Deliver(B, k, drawn) => DeliverKeepsLinks(p.a, p.b, k, drawn);
  }

  ghost predicate AllEnabled(p: Pair, es: seq<Event>) {
    forall i | 0 <= i < |es| :: Enabled(Run(p, es[..i]), es[i])
  }

  /** Over whole runs across epochs, no first delivery ever yields a key other than the one issued. */
  lemma {:induction false} LockstepRun(p: Pair, es: seq<Event>)
    requires Lockstep(p) && AllEnabled(p, es)
    ensures Lockstep(Run(p, es))
  {
    if es != [] {
      var init := es[..|es| - 1];
      assert forall i | 0 <= i < |init| :: init[..i] == es[..i] && init[i] == es[i];
      LockstepRun(p, init);
      StepKeepsLockstep(Run(p, init), es[|es| - 1]);
    }
  }
}
