/** The sessions a device holds, username by username and device by device, and how its operations change them. */
module Sessions {
  import opened Wrappers
  import opened Crypto
  import opened Ratchet
  import opened KeyBundle

  type Ratchets = map<DeviceId, State>

  type Sessions = map<string, Ratchets>

  function Of(m: Sessions, user: string): Ratchets {
    if user in m then m[user] else map[]
  }

  predicate Has(m: Sessions, user: string, d: DeviceId) {
    user in m && d in m[user]
  }

  function Put(m: Sessions, user: string, d: DeviceId, s: State): Sessions {
    m[user := Of(m, user)[d := s]]
  }

  lemma PutAt(m: Sessions, user: string, d: DeviceId, s: State, u: string, e: DeviceId)
    ensures Has(Put(m, user, d, s), u, e) <==> Has(m, u, e) || (u == user && e == d)
    ensures Has(Put(m, user, d, s), u, e) ==> Put(m, user, d, s)[u][e] == if u == user && e == d then s else m[u][e]
  {
  }

  lemma PutSame(m: Sessions, user: string, d: DeviceId)
    requires Has(m, user, d)
    ensures Put(m, user, d, m[user][d]) == m
  {
    assert m[user][d := m[user][d]] == m[user];
  }

  // ---- Sending to every device of a user ----

  function AllSent(r: Ratchets): Ratchets {
    map d | d in r :: AfterSend(r[d])
  }

  function SendAll(m: Sessions, user: string): Sessions {
    m[user := AllSent(Of(m, user))]
  }

  function KeysOfAll(r: Ratchets, me: DeviceId): map<DeviceId, (Term, Header)> {
    map d | d in r :: (SentKey(r[d]), SentHeader(r[d]).(deviceId := me))
  }

  function SentKeys(m: Sessions, user: string, me: DeviceId): map<DeviceId, (Term, Header)> {
    KeysOfAll(Of(m, user), me)
  }

  // ---- Receiving ----

  datatype Reply = Reply(outcome: Outcome) | UserNotFound | DeviceNotFound

  function ReceiveFrom(m: Sessions, user: string, h: Header, drawn: nat): (Sessions, Reply) {
    if user !in m then (m, UserNotFound)
    else if h.deviceId !in m[user] then (m, DeviceNotFound)
    else
      var (t, outcome) := AdvanceReceive(m[user][h.deviceId], h, drawn);
      (Put(m, user, h.deviceId, t), Reply(outcome))
  }

  // ---- Creating sessions ----

  /** A bundle offered for session creation, with what uninitialised memory holds when its ratchet is built. */
  datatype Offer = Offer(bundle: Bundle, unset: int)

  datatype Creation = Creation(ratchets: Ratchets, posted: seq<DeviceId>, error: Option<Error>)

  /** create_ratchets_if_needed, one bundle after the other, up to the first one that fails. */
  function CreateAll(m: Ratchets, offers: seq<Offer>, store: KeyStore, post: bool): Creation
    decreases |offers|
  {
    if offers == [] then Creation(m, [], None)
    else
      var device := offers[0].bundle.theirDevicePublic;
      if device in m then CreateAll(m, offers[1..], store, post)
      else
        match CreateRatchet(offers[0].bundle, store, offers[0].unset)
        case Failure(e) => Creation(m, [], Some(e))
        case Success(s) =>
          var rest := CreateAll(m[device := s], offers[1..], store, post);
          rest.(posted := (if post && offers[0].bundle.Sending? then [device] else []) + rest.posted)
  }

  /** Offering b after what came of a. */
  lemma {:induction false} CreateAllConcat(m: Ratchets, a: seq<Offer>, b: seq<Offer>, store: KeyStore, post: bool)
    ensures var c := CreateAll(m, a, store, post); var n := CreateAll(c.ratchets, b, store, post);
      CreateAll(m, a + b, store, post) == if c.error.Some? then c else n.(posted := c.posted + n.posted)
    decreases |a|
  {
    hide CreateRatchet;
    if a == [] {
      assert a + b == b;
    } else {
      var d, r := a[0].bundle.theirDevicePublic, CreateRatchet(a[0].bundle, store, a[0].unset);
      assert (a + b)[0] == a[0] && (a + b)[1..] == a[1..] + b;
      if d in m {
        CreateAllConcat(m, a[1..], b, store, post);
      } else if r.Success? {
        CreateAllConcat(m[d := r.value], a[1..], b, store, post);
      }
    }
  }

  predicate Offered(offers: seq<Offer>, device: DeviceId) {
    exists i | 0 <= i < |offers| :: offers[i].bundle.theirDevicePublic == device
  }

  /** The i-th offer is the first for its device. */
  predicate FirstOffer(offers: seq<Offer>, i: nat)
    requires i < |offers|
  {
    !Offered(offers[..i], offers[i].bundle.theirDevicePublic)
  }

  lemma OfferedStep(offers: seq<Offer>, device: DeviceId)
    requires offers != []
    ensures Offered(offers, device) <==> device == offers[0].bundle.theirDevicePublic || Offered(offers[1..], device)
  {
    if Offered(offers, device) && device != offers[0].bundle.theirDevicePublic {
      var i :| 0 <= i < |offers| && offers[i].bundle.theirDevicePublic == device;
      assert offers[1..][i - 1] == offers[i];
    }
    if Offered(offers[1..], device) {
      var i :| 0 <= i < |offers| - 1 && offers[1..][i].bundle.theirDevicePublic == device;
      assert offers[i + 1].bundle.theirDevicePublic == device;
    }
  }

  /** Creation gets as far as the i-th offer: up to and including it, each is for a device that is known or was offered
      before, or its bundle builds. */
  predicate Reached(m: Ratchets, offers: seq<Offer>, store: KeyStore, i: nat)
    requires i < |offers|
  {
    forall j | 0 <= j <= i :: Passes(m, offers, store, j)
  }

  predicate Passes(m: Ratchets, offers: seq<Offer>, store: KeyStore, j: nat)
    requires j < |offers|
  {
    var d := offers[j].bundle.theirDevicePublic;
    d in m || Offered(offers[..j], d) || CreateRatchet(offers[j].bundle, store, offers[j].unset).Success?
  }

  /** The devices that end up with a ratchet, told from the offers alone. */
  predicate WillHave(m: Ratchets, offers: seq<Offer>, store: KeyStore, d: DeviceId) {
    d in m || exists i | 0 <= i < |offers| :: offers[i].bundle.theirDevicePublic == d && Reached(m, offers, store, i)
  }

  lemma PassesLater(m: Ratchets, offers: seq<Offer>, store: KeyStore, next: Ratchets, j: nat)
    requires 0 < j < |offers| && next.Keys == m.Keys + {offers[0].bundle.theirDevicePublic}
    ensures Passes(m, offers, store, j) <==> Passes(next, offers[1..], store, j - 1)
  {
    hide CreateRatchet;
    assert offers[..j][0] == offers[0] && offers[..j][1..] == offers[1..][..j - 1];
    OfferedStep(offers[..j], offers[j].bundle.theirDevicePublic);
  }

  lemma ReachedLater(m: Ratchets, offers: seq<Offer>, store: KeyStore, next: Ratchets, i: nat)
    requires 0 < i < |offers| && next.Keys == m.Keys + {offers[0].bundle.theirDevicePublic}
    requires Passes(m, offers, store, 0)
    ensures Reached(m, offers, store, i) <==> Reached(next, offers[1..], store, i - 1)
  {
    hide Passes;
    forall j | 0 < j <= i ensures Passes(m, offers, store, j) <==> Passes(next, offers[1..], store, j - 1) {
      PassesLater(m, offers, store, next, j);
    }
    if Reached(m, offers, store, i) {
      forall j | 0 <= j <= i - 1 ensures Passes(next, offers[1..], store, j) {
        assert Passes(m, offers, store, j + 1);
      }
    }
  }

  lemma WillHaveLater(m: Ratchets, offers: seq<Offer>, store: KeyStore, next: Ratchets, d: DeviceId)
    requires offers != [] && next.Keys == m.Keys + {offers[0].bundle.theirDevicePublic}
    requires Passes(m, offers, store, 0)
    ensures WillHave(m, offers, store, d) <==> WillHave(next, offers[1..], store, d)
  {
    if d !in next {
      hide Reached;
      forall i | 0 < i < |offers|
        ensures Reached(m, offers, store, i) <==> Reached(next, offers[1..], store, i - 1)
      {
        ReachedLater(m, offers, store, next, i);
      }
      if WillHave(m, offers, store, d) {
        var i :| 0 <= i < |offers| && offers[i].bundle.theirDevicePublic == d && Reached(m, offers, store, i);
        assert offers[1..][i - 1] == offers[i];
      }
      if WillHave(next, offers[1..], store, d) {
        var i :| 0 <= i < |offers| - 1 && offers[1..][i].bundle.theirDevicePublic == d
          && Reached(next, offers[1..], store, i);
        assert offers[i + 1] == offers[1..][i];
      }
    } else if d !in m {
      assert offers[0].bundle.theirDevicePublic == d && Reached(m, offers, store, 0);
    }
  }

  lemma {:induction false} CreatedExactly(m: Ratchets, offers: seq<Offer>, store: KeyStore, post: bool, d: DeviceId)
    ensures d in CreateAll(m, offers, store, post).ratchets <==> WillHave(m, offers, store, d)
    decreases |offers|
  {
    hide CreateRatchet;
    if offers != [] {
      var device, r := offers[0].bundle.theirDevicePublic, CreateRatchet(offers[0].bundle, store, offers[0].unset);
      assert !Offered(offers[..0], device);
      if device in m {
        hide WillHave;
        WillHaveLater(m, offers, store, m, d);
        CreatedExactly(m, offers[1..], store, post, d);
      } else if r.Success? {
        hide WillHave;
        WillHaveLater(m, offers, store, m[device := r.value], d);
        CreatedExactly(m[device := r.value], offers[1..], store, post, d);
      } else {
        assert !Passes(m, offers, store, 0);
      }
    }
  }

  /** Existing ratchets are untouched, and unless a bundle fails the device set becomes the union. */
  lemma {:induction false} CreationIsMonotone(m: Ratchets, offers: seq<Offer>, store: KeyStore, post: bool)
    ensures var c := CreateAll(m, offers, store, post);
      && (forall d | d in m :: d in c.ratchets && c.ratchets[d] == m[d])
      && (forall d | d in c.ratchets :: d in m || Offered(offers, d))
      && (c.error.None? ==> forall d | Offered(offers, d) :: d in c.ratchets)
    decreases |offers|
  {
    if offers != [] {
      var device := offers[0].bundle.theirDevicePublic;
      forall d ensures Offered(offers, d) <==> d == device || Offered(offers[1..], d) {
        OfferedStep(offers, d);
      }
      CreationIsMonotone(m, offers[1..], store, post);
      if device !in m && CreateRatchet(offers[0].bundle, store, offers[0].unset).Success? {
        CreationIsMonotone(
          m[device := CreateRatchet(offers[0].bundle, store, offers[0].unset).value], offers[1..], store, post);
      }
    }
  }

  /** A new device's ratchet is the one its first bundle builds. */
  lemma {:induction false} FirstBundleWins(m: Ratchets, offers: seq<Offer>, store: KeyStore, post: bool, i: nat)
    requires i < |offers| && FirstOffer(offers, i)
    requires CreateAll(m, offers, store, post).error.None? && offers[i].bundle.theirDevicePublic !in m
    ensures var d := offers[i].bundle.theirDevicePublic; var c := CreateAll(m, offers, store, post);
      d in c.ratchets && CreateRatchet(offers[i].bundle, store, offers[i].unset) == Success(c.ratchets[d])
    decreases |offers|
  {
    var device := offers[0].bundle.theirDevicePublic;
    var next := if device in m then m else m[device := CreateRatchet(offers[0].bundle, store, offers[0].unset).value];
    if i == 0 {
      CreationIsMonotone(next, offers[1..], store, post);
    } else {
      assert offers[..i][0] == offers[0];
      OfferedStep(offers[..i], offers[i].bundle.theirDevicePublic);
      assert offers[..i][1..] == offers[1..][..i - 1];
      FirstBundleWins(next, offers[1..], store, post, i - 1);
    }
  }

  predicate NoRepeats(posted: seq<DeviceId>) {
    forall i, j | 0 <= i < j < |posted| :: posted[i] != posted[j]
  }

  lemma NothingRepeats()
    ensures NoRepeats([])
  {
  }

  lemma NoRepeatsMore(d: DeviceId, posted: seq<DeviceId>)
    requires NoRepeats(posted) && d !in posted
    ensures NoRepeats([d] + posted)
  {
  }

  /** Handshakes are posted for devices that were not there before, each at most once; exactly for those
      whose first bundle is the initiator's. */
  lemma {:induction false} PostedOncePerNewInitiator(m: Ratchets, offers: seq<Offer>, store: KeyStore, post: bool)
    ensures var c := CreateAll(m, offers, store, post);
      && NoRepeats(c.posted)
      && (forall d | d in c.posted :: d !in m && d in c.ratchets && !c.ratchets[d].reversed && post)
      && (forall d | d in c.ratchets && d !in m && d !in c.posted :: post ==> c.ratchets[d].reversed)
    decreases |offers|
  {
    hide CreateRatchet, NoRepeats;
    if offers == [] {
      NothingRepeats();
    } else {
      var device, r := offers[0].bundle.theirDevicePublic, CreateRatchet(offers[0].bundle, store, offers[0].unset);
      if device in m {
        PostedOncePerNewInitiator(m, offers[1..], store, post);
      } else if r.Success? {
        var next := m[device := r.value];
        PostedOncePerNewInitiator(next, offers[1..], store, post);
        CreationIsMonotone(next, offers[1..], store, post);
        ResponderIsReversed(offers[0].bundle, store, offers[0].unset);
        var c, rest := CreateAll(m, offers, store, post), CreateAll(next, offers[1..], store, post);
        assert c.ratchets == rest.ratchets && c.ratchets[device] == r.value;
        if post && offers[0].bundle.Sending? {
          assert c.posted == [device] + rest.posted;
          NoRepeatsMore(device, rest.posted);
        } else {
          assert c.posted == rest.posted;
        }
      } else {
        NothingRepeats();
      }
    }
  }

  lemma ResponderIsReversed(b: Bundle, store: KeyStore, unset: int)
    ensures var r := CreateRatchet(b, store, unset); r.Success? ==> r.value.reversed == b.Receiving?
  {
  }

  /** Offering bundles only for known devices changes nothing. */
  lemma {:induction false} KnownDevicesChangeNothing(m: Ratchets, offers: seq<Offer>, store: KeyStore, post: bool)
    requires forall d | Offered(offers, d) :: d in m
    ensures CreateAll(m, offers, store, post) == Creation(m, [], None)
  {
    if offers != [] {
      forall d ensures Offered(offers, d) <==> d == offers[0].bundle.theirDevicePublic || Offered(offers[1..], d) {
        OfferedStep(offers, d);
      }
      KnownDevicesChangeNothing(m, offers[1..], store, post);
    }
  }

  /** A second call with the same bundles changes nothing and posts nothing. */
  lemma CreationIsIdempotent(m: Ratchets, offers: seq<Offer>, store: KeyStore, post: bool)
    requires CreateAll(m, offers, store, post).error.None?
    ensures CreateAll(CreateAll(m, offers, store, post).ratchets, offers, store, post)
         == Creation(CreateAll(m, offers, store, post).ratchets, [], None)
  {
    CreationIsMonotone(m, offers, store, post);
    KnownDevicesChangeNothing(CreateAll(m, offers, store, post).ratchets, offers, store, post);
  }

  /** Where a new device's ratchet comes from, even when a later bundle fails: the first bundle for it. */
  lemma {:induction false} CreatedFrom(m: Ratchets, offers: seq<Offer>, store: KeyStore, post: bool, d: DeviceId)
      returns (i: nat)
    requires d in CreateAll(m, offers, store, post).ratchets && d !in m
    ensures i < |offers| && offers[i].bundle.theirDevicePublic == d && FirstOffer(offers, i)
    ensures Reached(m, offers, store, i)
    ensures CreateRatchet(offers[i].bundle, store, offers[i].unset)
         == Success(CreateAll(m, offers, store, post).ratchets[d])
    decreases |offers|
  {
    hide CreateRatchet, Passes;
    var device, r := offers[0].bundle.theirDevicePublic, CreateRatchet(offers[0].bundle, store, offers[0].unset);
    assert !Offered(offers[..0], device);
    FirstPasses(m, offers, store);
    if device !in m && device == d {
      i := 0;
      CreationIsMonotone(m[device := r.value], offers[1..], store, post);
    } else {
      var next := if device in m then m else m[device := r.value];
      var j := CreatedFrom(next, offers[1..], store, post, d);
      i := j + 1;
      ReachedLater(m, offers, store, next, i);
      assert offers[..i][0] == offers[0] && offers[..i][1..] == offers[1..][..j];
      OfferedStep(offers[..i], d);
    }
  }

  lemma FirstPasses(m: Ratchets, offers: seq<Offer>, store: KeyStore)
    requires offers != []
    ensures var d := offers[0].bundle.theirDevicePublic;
      Passes(m, offers, store, 0) <==> d in m || CreateRatchet(offers[0].bundle, store, offers[0].unset).Success?
  {
    assert !Offered(offers[..0], offers[0].bundle.theirDevicePublic);
  }

  // ---- Bundles that are refused ----

  /** A session that creation makes as initiator, and so every handshake it posts, is from a bundle whose prekey the
      device of the session signed. */
  lemma OnlySignedSessions(m: Ratchets, offers: seq<Offer>, store: KeyStore, post: bool, d: DeviceId) returns (i: nat)
    requires var c := CreateAll(m, offers, store, post);
      d in c.posted || (d in c.ratchets && d !in m && !c.ratchets[d].reversed)
    ensures i < |offers|
    ensures var b := offers[i].bundle;
      && b.Sending? && b.theirDevicePublic == d
      && d.EdPublic? && b.theirSignature == Signature(d.ed, b.theirSignedPublic)
  {
    hide CreateAll, CreateRatchet;
    PostedOncePerNewInitiator(m, offers, store, post);
    i := CreatedFrom(m, offers, store, post, d);
    ResponderIsReversed(offers[i].bundle, store, offers[i].unset);
    BundleErrors(offers[i].bundle, store, offers[i].unset);
  }

  /** Creation stops at the first offer for a new device whose bundle fails, with its error: no session and no handshake
      for it or for anything after it. */
  lemma CreationStops(m: Ratchets, a: seq<Offer>, o: Offer, b: seq<Offer>, store: KeyStore, post: bool)
    requires CreateAll(m, a, store, post).error.None?
    requires o.bundle.theirDevicePublic !in CreateAll(m, a, store, post).ratchets
    requires CreateRatchet(o.bundle, store, o.unset).Failure?
    ensures CreateAll(m, a + [o] + b, store, post)
         == CreateAll(m, a, store, post).(error := Some(CreateRatchet(o.bundle, store, o.unset).error))
  {
    hide CreateRatchet;
    assert a + [o] + b == a + ([o] + b);
    CreateAllConcat(m, a, [o] + b, store, post);
  }

  /** So a prekey that its device did not sign gets nobody a session. */
  lemma ForgedBundleStops(m: Ratchets, a: seq<Offer>, o: Offer, b: seq<Offer>, store: KeyStore, post: bool)
    requires CreateAll(m, a, store, post).error.None?
    requires o.bundle.theirDevicePublic !in CreateAll(m, a, store, post).ratchets
    requires o.bundle.Sending?
    requires forall ed :: o.bundle.theirDevicePublic == EdPublic(ed) ==>
      o.bundle.theirSignature != Signature(ed, o.bundle.theirSignedPublic)
    ensures CreateAll(m, a + [o] + b, store, post) == CreateAll(m, a, store, post).(error := Some(InvalidSignature))
  {
    hide CreateRatchet, CreateAll;
    assert o.bundle.theirDevicePublic.EdPublic? ==>
      o.bundle.theirDevicePublic == EdPublic(o.bundle.theirDevicePublic.ed);
    BundleErrors(o.bundle, store, o.unset);
    CreationStops(m, a, o, b, store, post);
  }

  // ---- Lookup ----

  /** Which lookup fails when there is no ratchet to receive with. */
  lemma LookupFails(m: Sessions, user: string, h: Header, drawn: nat)
    ensures ReceiveFrom(m, user, h, drawn).1 == UserNotFound <==> user !in m.Keys
    ensures ReceiveFrom(m, user, h, drawn).1 == DeviceNotFound <==> user in m.Keys && h.deviceId !in m[user].Keys
    ensures !ReceiveFrom(m, user, h, drawn).1.Reply? ==> ReceiveFrom(m, user, h, drawn).0 == m
  {
    hide AdvanceReceive;
  }

  // ---- Fetched bundles ----

  /** The sessions once the fetched bundles, if any, have been made sessions for a user, the handshakes posted for them,
      and the error of the first bundle that failed. */
  datatype Fetched = Fetched(sessions: Sessions, posted: seq<DeviceId>, error: Option<Error>)

  function WithFetched(m: Sessions, user: string, fetched: Option<seq<Offer>>, store: KeyStore): Fetched {
    if fetched.None? then Fetched(m, [], None)
    else
      var c := CreateAll(Of(m, user), fetched.value, store, true);
      Fetched(m[user := c.ratchets], c.posted, c.error)
  }

  // ---- The handshake backlog ----

  datatype Acceptance = Acceptance(sessions: Sessions, posted: seq<DeviceId>, error: Option<Error>)

  /** update_handshakes: one creation per handshake, up to the first one that fails. */
  function AcceptAll(m: Sessions, handshakes: seq<(string, Offer)>, store: KeyStore): Acceptance
    decreases |handshakes|
  {
    if handshakes == [] then Acceptance(m, [], None)
    else
      var (user, offer) := handshakes[0];
      var c := CreateAll(Of(m, user), [offer], store, true);
      var n := m[user := c.ratchets];
      if c.error.Some? then Acceptance(n, c.posted, c.error)
      else
        var rest := AcceptAll(n, handshakes[1..], store);
        rest.(posted := c.posted + rest.posted)
  }

  ghost predicate Extends(n: Sessions, m: Sessions) {
    forall u, d | Has(m, u, d) :: Has(n, u, d) && n[u][d] == m[u][d]
  }

  lemma OneAccepted(m: Sessions, user: string, offer: Offer, store: KeyStore)
    ensures var c := CreateAll(Of(m, user), [offer], store, true); var n := m[user := c.ratchets];
      && Extends(n, m) && (c.error.None? ==> Has(n, user, offer.bundle.theirDevicePublic))
      && (Has(m, user, offer.bundle.theirDevicePublic) ==> n == m && c.error.None? && c.posted == [])
  {
    CreationIsMonotone(Of(m, user), [offer], store, true);
    assert [offer][0].bundle.theirDevicePublic == offer.bundle.theirDevicePublic;
    assert Offered([offer], offer.bundle.theirDevicePublic);
    if Has(m, user, offer.bundle.theirDevicePublic) {
      KnownDevicesChangeNothing(m[user], [offer], store, true);
      assert m[user := m[user]] == m;
    }
  }

  /** Working off the backlog keeps every session there was, and unless a handshake fails it ends with one for each. */
  lemma {:induction false} AcceptingKeepsSessions(m: Sessions, handshakes: seq<(string, Offer)>, store: KeyStore)
    ensures var a := AcceptAll(m, handshakes, store);
      && Extends(a.sessions, m)
      && (a.error.None? ==>
            forall i | 0 <= i < |handshakes| ::
              Has(a.sessions, handshakes[i].0, handshakes[i].1.bundle.theirDevicePublic))
    decreases |handshakes|
  {
    hide CreateAll;
    if handshakes != [] {
      var (user, offer) := handshakes[0];
      OneAccepted(m, user, offer, store);
      var c := CreateAll(Of(m, user), [offer], store, true);
      if c.error.None? {
        AcceptingKeepsSessions(m[user := c.ratchets], handshakes[1..], store);
      }
    }
  }

  /** The server may hand out the same backlog again: nothing changes. */
  lemma {:induction false} AcceptingAgain(m: Sessions, handshakes: seq<(string, Offer)>, store: KeyStore)
    requires forall i | 0 <= i < |handshakes| :: Has(m, handshakes[i].0, handshakes[i].1.bundle.theirDevicePublic)
    ensures AcceptAll(m, handshakes, store) == Acceptance(m, [], None)
    decreases |handshakes|
  {
    hide CreateAll;
    if handshakes != [] {
      OneAccepted(m, handshakes[0].0, handshakes[0].1, store);
      AcceptingAgain(m, handshakes[1..], store);
    }
  }
}
