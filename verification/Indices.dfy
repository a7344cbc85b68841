/** Session indices across the peers of a device: how one is drawn, and how a datagram's index finds
    its peer. */
module Indices {
  import opened Clock
  import opened Options
  import opened Replay
  import opened Session

  /** One element of the device's peer array. */
  datatype Element = Element(valid: bool, peer: Peer)

  predicate InUse(e: Element, index: U32) {
    index == e.peer.curr.localIndex || index == e.peer.prev.localIndex || index == e.peer.next.localIndex
    || index == e.peer.hs.localIndex
  }

  predicate InUseAnywhere(peers: seq<Element>, index: U32) {
    exists i :: 0 <= i < |peers| && InUse(peers[i], index)
  }

  /** The loop of wireguard_generate_unique_index: every turn overwrites the verdict of the one before. */
  method LooksTaken(peers: seq<Element>, index: U32) returns (existing: bool)
    ensures existing == TakenByLast(peers, index)
  {
    existing := false;
    for x := 0 to |peers|
      invariant existing == TakenByLast(peers[..x], index)
    {
      existing := InUse(peers[x], index);
    }
    assert peers[..|peers|] == peers;
  }

  predicate TakenByLast(peers: seq<Element>, index: U32) {
    peers != [] && InUse(peers[|peers| - 1], index)
  }

  /** Every index the check lets pass is new to the device. */
  ghost predicate CheckIsDeviceWide(maxPeers: nat) {
    forall peers: seq<Element>, index: U32 ::
      |peers| == maxPeers ==> (TakenByLast(peers, index) <==> InUseAnywhere(peers, index))
  }

  function Blank(index: U32): Element {
    var none := Window(0, {});
    var k := Keypair(true, true, 1, 0, true, 0, 0, none, index, 0, 0);
    Element(true, Session.Peer(k, DESTROYED, DESTROYED, Session.Handshake(false, false, 0, 0, 0), 0, 0, 0, 64,
                               0, 0, 0, 0, 0, false, false, false,
                               History(1, [0], map[0 := Birth(true, 1)], [], [])))
  }

  /** The check covers the whole device exactly when the device has at most one peer. */
  lemma DeviceWideExactlyForOnePeer(maxPeers: nat)
    ensures CheckIsDeviceWide(maxPeers) <==> maxPeers <= 1
  {
    if maxPeers >= 2 {
      var peers := [Blank(7)] + seq(maxPeers - 1, i => Blank(8));
      assert InUse(peers[0], 7) && !InUse(peers[maxPeers - 1], 7);
      assert |peers| == maxPeers && InUseAnywhere(peers, 7) && !TakenByLast(peers, 7);
    } else {
      forall peers: seq<Element>, index: U32 | |peers| == maxPeers
        ensures TakenByLast(peers, index) <==> InUseAnywhere(peers, index)
      {
        if TakenByLast(peers, index) {
          assert InUse(peers[0], index);
        }
      }
    }
  }

  /** The peer has a session under this index. */
  predicate Holds(e: Element, index: U32) { e.valid && KeypairForIndex(e.peer, index).Some? }

  /** peer_lookup_by_receiver */
  method LookupByReceiver(peers: seq<Element>, index: U32) returns (found: Maybe<nat>)
    ensures found == FirstHolder(peers, index)
  {
    var x := 0;
    while x < |peers|
      invariant 0 <= x <= |peers| && forall i :: 0 <= i < x ==> !Holds(peers[i], index)
    {
      if Holds(peers[x], index) {
        FirstIs(peers, index, x);
        return Some(x);
      }
      x := x + 1;
    }
    NoneIs(peers, index);
    return None;
  }

  function FirstHolder(peers: seq<Element>, index: U32): Maybe<nat> {
    if peers == [] then None
    else if Holds(peers[0], index) then Some(0)
    else match FirstHolder(peers[1..], index)
      case None => None
      case Some(i) => Some(i + 1)
  }

  lemma {:induction false} FirstIs(peers: seq<Element>, index: U32, x: nat)
    requires x < |peers| && Holds(peers[x], index) && forall i :: 0 <= i < x ==> !Holds(peers[i], index)
    ensures FirstHolder(peers, index) == Some(x)
  {
    hide Holds;
    if x > 0 {
      FirstIs(peers[1..], index, x - 1);
    }
  }

  lemma {:induction false} NoneIs(peers: seq<Element>, index: U32)
    requires forall i :: 0 <= i < |peers| ==> !Holds(peers[i], index)
    ensures FirstHolder(peers, index) == None
  {
    hide Holds;
    if peers != [] {
      NoneIs(peers[1..], index);
    }
  }

  lemma {:induction false} HolderIsFirst(peers: seq<Element>, index: U32)
    ensures match FirstHolder(peers, index)
            case None => forall i :: 0 <= i < |peers| ==> !Holds(peers[i], index)
            case Some(x) => x < |peers| && Holds(peers[x], index) && forall i :: 0 <= i < x ==> !Holds(peers[i], index)
  {
    hide Holds;
    if peers != [] {
      HolderIsFirst(peers[1..], index);
    }
  }

  /** A datagram for a session of peer x reaches it exactly if no peer in an earlier slot has a session
      under the same index. */
  lemma ReachesItsPeer(peers: seq<Element>, index: U32, x: nat)
    requires x < |peers| && Holds(peers[x], index)
    ensures FirstHolder(peers, index) == Some(x) <==> forall i :: 0 <= i < x ==> !Holds(peers[i], index)
  {
    hide Holds;
    HolderIsFirst(peers, index);
    if forall i :: 0 <= i < x ==> !Holds(peers[i], index) {
      FirstIs(peers, index, x);
    }
  }
}
