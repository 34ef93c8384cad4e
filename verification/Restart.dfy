/** Runs of one ratchet over any sends, any received headers and any restarts. */
module Restart {
  import opened Integers
  import opened Crypto
  import opened Ratchet
  import opened Codec
  import Backlog
  import Sets

  datatype Op =
    | Send
    | Receive(header: Header, drawn: nat)
    | Restart(order: seq<int>)

  datatype Output = Sent(key: Term, header: Header) | Answer(outcome: Outcome)

  /** Saving and loading, with the backlog written in the given order. */
  ghost function Reload(s: State, order: seq<int>): State {
    if IsOrder(order, s.skippedKeys) && Complete(Encode(s, order)) then Decode(Encode(s, order)) else s
  }

  ghost function Step(s: State, op: Op): (State, seq<Output>) {
    match op
    case Send => (AfterSend(s), [Sent(SentKey(s), SentHeader(s))])
    case Receive(h, drawn) => var (t, outcome) := AdvanceReceive(s, h, drawn); (t, [Answer(outcome)])
    case Restart(order) => (Reload(s, order), [])
  }

  ghost function Run(s: State, ops: seq<Op>): (State, seq<Output>) {
    if ops == [] then (s, [])
    else
      var (t, outputs) := Run(s, ops[..|ops| - 1]);
      var (u, more) := Step(t, ops[|ops| - 1]);
      (u, outputs + more)
  }

  function WithoutRestarts(ops: seq<Op>): seq<Op> {
    if ops == [] then []
    else
      var init, last := WithoutRestarts(ops[..|ops| - 1]), ops[|ops| - 1];
      if last.Restart? then init else init + [last]
  }

  // ---- 32-bit room ----

  predicate HeaderFits(h: Header) {
    IsInt32(h.prevChainLength) && IsInt32(h.messageIndex) && h.messageIndex < TWO_31 - 1
  }

  /** No index of the run leaves the range of a C++ int. */
  ghost predicate Room(s: State, ops: seq<Op>) {
    && Roomy(s, |ops|)
    && forall i | 0 <= i < |ops| && ops[i].Receive? :: HeaderFits(ops[i].header)
  }

  ghost predicate Roomy(s: State, left: nat) {
    && -TWO_31 <= s.sendChain.index && s.sendChain.index + left < TWO_31 && left < TWO_31
    && IsInt32(s.receiveChain.index) && IsInt32(s.prevChainLength)
    && forall k | k in s.skippedKeys :: IsInt32(k) && k < TWO_31 - 1
  }

  lemma RoomyFits(s: State, left: nat)
    requires Roomy(s, left)
    ensures Fits(s)
  {
    Sets.SubsetSize(s.skippedKeys.Keys, Backlog.Range(-TWO_31, TWO_31 - 1));
  }

  lemma RoomyReload(s: State, order: seq<int>, left: nat)
    requires Roomy(s, left)
    ensures Observe(Reload(s, order)) == Observe(s)
  {
    if IsOrder(order, s.skippedKeys) {
      RoomyFits(s, left);
      ReadsBack(s, order);
    }
  }

  lemma EnterEpochKeepsRoom(s: State, h: Header, drawn: nat, left: nat)
    requires Roomy(s, left) && HeaderFits(h)
    ensures Roomy(EnterEpoch(s, h, drawn), left)
  {
  }

  lemma SendKeepsRoom(s: State, left: nat)
    requires left > 0 && Roomy(s, left)
    ensures Roomy(AfterSend(s), left - 1)
  {
    hide DhOutput, EpochKey, EpochRoot;
  }

  lemma ReceiveKeepsRoom(s: State, h: Header, drawn: nat, left: nat)
    requires left > 0 && Roomy(s, left) && HeaderFits(h)
    ensures Roomy(AdvanceReceive(s, h, drawn).0, left - 1)
  {
    hide EnterEpoch;
    EnterEpochKeepsRoom(s, h, drawn, left);
  }

  lemma ReloadKeepsRoom(s: State, order: seq<int>, left: nat)
    requires left > 0 && Roomy(s, left)
    ensures Roomy(Reload(s, order), left - 1)
  {
    hide Reload;
    RoomyReload(s, order, left);
    SameRoom(s, Reload(s, order), left);
  }

  /** Room is told from the fields that reading back keeps. */
  lemma SameRoom(s: State, t: State, left: nat)
    requires left > 0 && Observe(s) == Observe(t) && Roomy(s, left)
    ensures Roomy(t, left - 1)
  {
    assert Observe(s).skippedKeys == s.skippedKeys && Observe(t).skippedKeys == t.skippedKeys;
  }

  lemma StepKeepsRoom(s: State, op: Op, left: nat)
    requires left > 0 && Roomy(s, left) && (op.Receive? ==> HeaderFits(op.header))
    ensures Roomy(Step(s, op).0, left - 1)
  {
    hide Roomy, HeaderFits, AfterSend, AdvanceReceive, Reload;
    match op
    case Send => SendKeepsRoom(s, left);
    case Receive(h, drawn) => ReceiveKeepsRoom(s, h, drawn, left);
    case Restart(order) => ReloadKeepsRoom(s, order, left);
  }

  // ---- Restarts are invisible ----

  lemma ObserveSameDh(s: State)
    ensures DhOutput(Observe(s)) == DhOutput(s)
  {
    assert s.localDhPriv[..KEY_LENGTH][..KEY_LENGTH] == s.localDhPriv[..KEY_LENGTH];
  }

  lemma ObserveNewKeypair(s: State, drawn: nat)
    ensures Observe(WithNewKeypair(s, drawn)) == WithNewKeypair(Observe(s), drawn)
  {
    var secret := Bytes(Secret(Box(drawn)), KEY_LENGTH);
    assert s.localDhPriv[..KEY_LENGTH][KEY_LENGTH..] == [];
    assert (secret + s.localDhPriv[KEY_LENGTH..])[..KEY_LENGTH] == secret + [];
  }

  lemma ObserveSend(s: State)
    ensures Observe(AfterSend(s)) == AfterSend(Observe(s))
    ensures SentKey(s) == SentKey(Observe(s)) && SentHeader(s) == SentHeader(Observe(s))
  {
    ObserveSameDh(s);
  }

  lemma ObserveStep(s: State, drawn: nat)
    ensures Observe(DhRatchetStep(s, true, drawn)) == DhRatchetStep(Observe(s), true, drawn)
  {
    ObserveSameDh(s);
    ObserveNewKeypair(s, drawn);
    ObserveSameDh(WithNewKeypair(s, drawn));
  }

  lemma ObserveEnterEpoch(s: State, h: Header, drawn: nat)
    ensures Observe(EnterEpoch(s, h, drawn)) == EnterEpoch(Observe(s), h, drawn)
  {
    if h.dhPublic != s.remoteDhPublic {
      var t := s.(
        skippedKeys := s.skippedKeys + SkippedRange(s.receiveChain.key, h.prevChainLength, s.receiveChain.index),
                  remoteDhPublic := h.dhPublic);
      ObserveStep(t, drawn);
    }
  }

  lemma ObserveTake(s: State, n: int)
    ensures Observe(TakeKey(s, n).0) == TakeKey(Observe(s), n).0
    ensures TakeKey(s, n).1 == TakeKey(Observe(s), n).1
  {
  }

  /** A step other than a restart acts on what can be observed. */
  lemma StepOnObserved(s: State, op: Op)
    requires !op.Restart?
    ensures Observe(Step(s, op).0) == Step(Observe(s), op).0
    ensures Step(s, op).1 == Step(Observe(s), op).1
  {
    match op
    case Send => ObserveSend(s);
    case Receive(h, drawn) =>
      ObserveEnterEpoch(s, h, drawn);
      ObserveTake(EnterEpoch(s, h, drawn), h.messageIndex);
  }

  /** Dropping every restart from a run changes no key, no header, no error and no observed state. */
  lemma {:induction false} RestartsAreInvisible(s: State, ops: seq<Op>)
    requires Room(s, ops)
    ensures Run(s, ops).1 == Run(s, WithoutRestarts(ops)).1
    ensures Observe(Run(s, ops).0) == Observe(Run(s, WithoutRestarts(ops)).0)
    ensures Roomy(Run(s, ops).0, 0)
  {
    RunWithoutRestarts(s, ops, |ops|);
  }

  lemma {:induction false} RunWithoutRestarts(s: State, ops: seq<Op>, budget: nat)
    requires |ops| <= budget && Roomy(s, budget)
    requires forall i | 0 <= i < |ops| && ops[i].Receive? :: HeaderFits(ops[i].header)
    ensures Run(s, ops).1 == Run(s, WithoutRestarts(ops)).1
    ensures Observe(Run(s, ops).0) == Observe(Run(s, WithoutRestarts(ops)).0)
    ensures Roomy(Run(s, ops).0, budget - |ops|)
  {
    if ops != [] {
      var init, op := ops[..|ops| - 1], ops[|ops| - 1];
      RunWithoutRestarts(s, init, budget);
      var t := Run(s, init).0;
      StepKeepsRoom(t, op, budget - |init|);
      if op.Restart? {
        RoomyReload(t, op.order, budget - |init|);
      } else {
        var kept := WithoutRestarts(init);
        StepOnObserved(t, op);
        StepOnObserved(Run(s, kept).0, op);
        assert (kept + [op])[..|kept|] == kept;
      }
    }
  }

  // ---- The send step is redundant ----

  lemma {:induction false} DueIsDerivedAlways(s: State, ops: seq<Op>, budget: nat)
    requires |ops| <= budget && Roomy(s, budget) && DueIsDerived(s)
    requires forall i | 0 <= i < |ops| && ops[i].Receive? :: HeaderFits(ops[i].header)
    ensures DueIsDerived(Run(s, ops).0)
  {
    if ops != [] {
      var init, op := ops[..|ops| - 1], ops[|ops| - 1];
      DueIsDerivedAlways(s, init, budget);
      RunWithoutRestarts(s, init, budget);
      var t := Run(s, init).0;
      match op
      case Send => DueIsDerivedKept(t, SentHeader(t), 0);
      case Receive(h, drawn) => DueIsDerivedKept(t, h, drawn);
      case Restart(order) => RoomyReload(t, order, budget - |init|);
    }
  }

  /** Whatever is sent, received or restarted, a ratchet that owes a new key already holds the chain the
      step before the next send would derive, so that step changes nothing. */
  lemma SendStepAlwaysRedundant(
      reversed: bool, secret: Term, localPublic: Term, localPriv: Buffer, remote: Term, unset: int, ops: seq<Op>)
    requires IsInt32(unset) && Room(Initial(reversed, secret, localPublic, localPriv, remote, unset), ops)
    ensures var s := Run(Initial(reversed, secret, localPublic, localPriv, remote, unset), ops).0;
      s.dueToSendNewDh ==> s.sendChain.index == 0 && DhRatchetStep(s, false, 0) == s
  {
    var s := Initial(reversed, secret, localPublic, localPriv, remote, unset);
    DueIsDerivedAlways(s, ops, |ops|);
  }
}
