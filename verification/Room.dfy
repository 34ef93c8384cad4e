/** How many more steps the indices of all sessions have before they leave the range of a C++ int. */
module Room {
  import opened Integers
  import opened Ratchet
  import opened Codec
  import KeyBundle
  import opened Sessions
  import Restart

  ghost predicate RoomyRatchets(r: Ratchets, left: nat) {
    forall d | d in r :: Restart.Roomy(r[d], left)
  }

  ghost predicate AllRoomy(m: Sessions, left: nat) {
    forall u, d | Has(m, u, d) :: Restart.Roomy(m[u][d], left)
  }

  lemma LessRoom(m: Sessions, left: nat, less: nat)
    requires AllRoomy(m, left) && less <= left
    ensures AllRoomy(m, less)
  {
  }

  lemma {:induction false} CreatedRoomy(
      m: Ratchets, offers: seq<Offer>, store: KeyBundle.KeyStore, post: bool, left: nat)
    requires RoomyRatchets(m, left) && left < TWO_31
    requires forall i | 0 <= i < |offers| :: IsInt32(offers[i].unset)
    ensures RoomyRatchets(CreateAll(m, offers, store, post).ratchets, left)
    decreases |offers|
  {
    if offers != [] {
      var d, r := offers[0].bundle.theirDevicePublic, KeyBundle.CreateRatchet(offers[0].bundle, store, offers[0].unset);
      if d in m {
        CreatedRoomy(m, offers[1..], store, post, left);
      } else if r.Success? {
        CreatedRoomy(m[d := r.value], offers[1..], store, post, left);
      }
    }
  }

  lemma CreationKeepsRoom(
      m: Sessions, user: string, offers: seq<Offer>, store: KeyBundle.KeyStore, post: bool, left: nat)
    requires AllRoomy(m, left) && left < TWO_31 && forall i | 0 <= i < |offers| :: IsInt32(offers[i].unset)
    ensures AllRoomy(m[user := CreateAll(Of(m, user), offers, store, post).ratchets], left)
  {
    hide CreateAll, Restart.Roomy, IsInt32;
    forall d | d in Of(m, user) ensures Restart.Roomy(Of(m, user)[d], left) {
      assert Has(m, user, d);
    }
    CreatedRoomy(Of(m, user), offers, store, post, left);
    var n := m[user := CreateAll(Of(m, user), offers, store, post).ratchets];
    forall u, d | Has(n, u, d) ensures Restart.Roomy(n[u][d], left) {
      assert u != user ==> Has(m, u, d);
    }
  }

  lemma SendingKeepsRoom(m: Sessions, user: string, left: nat)
    requires left > 0 && AllRoomy(m, left)
    ensures AllRoomy(SendAll(m, user), left - 1)
  {
    hide AfterSend, Restart.Roomy;
    var n := SendAll(m, user);
    forall u, d | Has(n, u, d) ensures Restart.Roomy(n[u][d], left - 1) {
      assert Has(m, u, d);
      Restart.StepKeepsRoom(m[u][d], Restart.Send, left);
      RoomyLess(m[u][d], left);
    }
  }

  lemma RoomyLess(s: State, left: nat)
    requires left > 0 && Restart.Roomy(s, left)
    ensures Restart.Roomy(s, left - 1)
  {
  }

  lemma ReceivingKeepsRoom(m: Sessions, user: string, h: Header, drawn: nat, left: nat)
    requires left > 0 && AllRoomy(m, left) && Restart.HeaderFits(h)
    ensures AllRoomy(ReceiveFrom(m, user, h, drawn).0, left - 1)
  {
    hide AdvanceReceive, Restart.Roomy, Restart.HeaderFits;
    var m' := ReceiveFrom(m, user, h, drawn).0;
    forall u, d | Has(m', u, d) ensures Restart.Roomy(m'[u][d], left - 1) {
      assert Has(m, u, d);
      Restart.StepKeepsRoom(m[u][d], Restart.Receive(h, drawn), left);
      RoomyLess(m[u][d], left);
    }
  }
}
