/** Discovering devices and giving them addresses (src/mesh/mod.rs:284-347, src/mesh/provisioner.rs). */
module Provisioning {
  import opened Common

  type Uuid = nat
  type Address = nat

  const FIRST_ADDRESS: nat := 0x0005
  const LAST_COUNT: nat := 0xFFFF

  datatype Event =
    | Discovered(uuid: Uuid)
    | NodeAdded(uuid: Uuid, unicastAddr: Address)
    | AddFailed
    | Restarted  // a call has failed and the loop starts again

  /** The devices being added, and the nodes that are on the network. */
  datatype Network = Network(discovering: set<Uuid>, connected: map<Address, Uuid>)

  /** Whether a discovery leads to an `add_node` call. */
  predicate CallsAddNode(n: Network, e: Event) {
    e.Discovered? && e.uuid !in n.discovering
  }

  function Next(n: Network, e: Event): Network {
    match e
    case Discovered(u) => n.(discovering := n.discovering + {u})
    case NodeAdded(u, a) => Network(n.discovering - {u}, n.connected[a := u])
    case AddFailed => n
    case Restarted => Network({}, map[])
  }

  function After(events: seq<Event>): Network {
    if events == [] then Network({}, map[]) else Next(After(events[..|events| - 1]), events[|events| - 1])
  }

  class LoopState {
    var discovering: set<Uuid>
    var connected: map<Address, Uuid>

    ghost function Abs(): Network
      reads this
    {
      Network(discovering, connected)
    }

    constructor ()
      ensures Abs() == After([])
    {
      discovering, connected := {}, map[];
    }

    /** The event branch of the loop; `addNode` says whether it calls `add_node`. */
    method Handle(e: Event) returns (addNode: bool)
      modifies this
      ensures Abs() == Next(old(Abs()), e)
      ensures addNode <==> CallsAddNode(old(Abs()), e)
    {
      addNode := false;
      match e {
        case Discovered(uuid) =>
          if uuid !in discovering {
            discovering := discovering + {uuid};
            addNode := true;
          }
        case NodeAdded(uuid, unicastAddr) =>
          discovering := discovering - {uuid};
          connected := connected[unicastAddr := uuid];
        case AddFailed =>
        case Restarted =>
          discovering, connected := {}, map[];
      }
    }
  }

  /** A device was discovered, and since then it has not been added and the loop has not started again. */
  ghost predicate Waiting(events: seq<Event>, u: Uuid) {
    exists i :: 0 <= i < |events| && events[i] == Discovered(u) && UnansweredFrom(events, i, u)
  }

  predicate Ends(e: Event, u: Uuid) {
    e.Restarted? || (e.NodeAdded? && e.uuid == u)
  }

  ghost predicate UnansweredFrom(events: seq<Event>, i: nat, u: Uuid) {
    forall k :: i <= k < |events| ==> !Ends(events[k], u)
  }

  /** In every run the set of devices being added is exactly that. */
  lemma {:induction false} DiscoveringIsWaiting(events: seq<Event>, u: Uuid)
    ensures u in After(events).discovering <==> Waiting(events, u)
  {
    if events != [] {
      var n := |events| - 1;
      var front := events[..n];
      DiscoveringIsWaiting(front, u);
      if Waiting(front, u) {
        var i :| 0 <= i < n && front[i] == Discovered(u) && UnansweredFrom(front, i, u);
        assert events[i] == Discovered(u);
        if !Ends(events[n], u) {
          assert UnansweredFrom(events, i, u);
        }
      }
      if events[n] == Discovered(u) {
        assert UnansweredFrom(events, n, u);
      }
      if Waiting(events, u) && events[n] != Discovered(u) {
        var i :| 0 <= i < |events| && events[i] == Discovered(u) && UnansweredFrom(events, i, u);
        assert front[i] == Discovered(u);
        assert UnansweredFrom(front, i, u) by {
          assert forall k :: i <= k < n ==> front[k] == events[k];
        }
      }
    }
  }

  /** `add_node` is called for a discovery exactly when no earlier discovery of the device is still unanswered by
      its addition or a new start of the loop; a failed addition is no answer. */
  lemma {:induction false} AddNodeCalledIff(events: seq<Event>, j: nat)
    requires j < |events| && events[j].Discovered?
    ensures CallsAddNode(After(events[..j]), events[j]) <==> !Waiting(events[..j], events[j].uuid)
  {
    DiscoveringIsWaiting(events[..j], events[j].uuid);
  }

  /** Since the last start of the loop a device was added with address `a`, last of all `u`. */
  ghost predicate LastAdded(events: seq<Event>, a: Address, u: Uuid) {
    exists i :: 0 <= i < |events| && events[i] == NodeAdded(u, a) && KeptFrom(events, i, a)
  }

  ghost predicate KeptFrom(events: seq<Event>, i: nat, a: Address) {
    forall k :: i < k < |events| ==> !Replaces(events[k], a)
  }

  predicate Replaces(e: Event, a: Address) {
    e.Restarted? || (e.NodeAdded? && e.unicastAddr == a)
  }

  /** In every run the node connected at an address is exactly the last one added there. */
  lemma {:induction false} ConnectedIsLastAdded(events: seq<Event>, a: Address, u: Uuid)
    ensures a in After(events).connected && After(events).connected[a] == u <==> LastAdded(events, a, u)
  {
    if events != [] {
      var n := |events| - 1;
      var front := events[..n];
      ConnectedIsLastAdded(front, a, u);
      if Replaces(events[n], a) {
        if events[n] == NodeAdded(u, a) {
          assert KeptFrom(events, n, a);
        }
      } else {
        if LastAdded(front, a, u) {
          var i :| 0 <= i < n && front[i] == NodeAdded(u, a) && KeptFrom(front, i, a);
          assert events[i] == NodeAdded(u, a) && KeptFrom(events, i, a);
        }
        if LastAdded(events, a, u) {
          var i :| 0 <= i <= n && events[i] == NodeAdded(u, a) && KeptFrom(events, i, a);
          assert front[i] == NodeAdded(u, a);
          assert KeptFrom(front, i, a) by {
            assert forall k :: i < k < n ==> front[k] == events[k];
          }
        }
      }
    }
  }

  /** Everybody connected is somebody who was added. */
  lemma {:induction false} ConnectedWasAdded(events: seq<Event>, a: Address)
    ensures a in After(events).connected <==> exists u :: LastAdded(events, a, u)
  {
    if a in After(events).connected {
      ConnectedIsLastAdded(events, a, After(events).connected[a]);
    }
    if u :| LastAdded(events, a, u) {
      ConnectedIsLastAdded(events, a, u);
    }
  }

  class Provisioner {
    var addrCnt: nat
    ghost var handedOut: seq<Address>

    /** Addresses are handed out in order, each once. */
    ghost predicate Valid()
      reads this
    {
      && addrCnt == FIRST_ADDRESS + |handedOut| <= LAST_COUNT
      && forall i :: 0 <= i < |handedOut| ==> handedOut[i] == FIRST_ADDRESS + i
    }

    constructor ()
      ensures Valid() && handedOut == []
    {
      addrCnt, handedOut := FIRST_ADDRESS, [];
    }

    /** `request_prov_data`; `None` is a panic: more than one address asked for, or the counter overflows. */
    method RequestProvData(unicastCount: nat) returns (addr: Option<Address>)
      requires Valid()
      modifies this
      ensures Valid()
      ensures addr.Some? <==> unicastCount == 1 && 5 + |old(handedOut)| < 0xFFFF
      ensures addr.Some? ==> addr.value !in old(handedOut) && handedOut == old(handedOut) + [addr.value]
      ensures addr.Some? ==> addr.value == 5 + |old(handedOut)|
      ensures addr.None? ==> handedOut == old(handedOut)
    {
      if unicastCount != 1 || addrCnt + 1 > LAST_COUNT {
        return None;
      }
      addr := Some(addrCnt);
      handedOut := handedOut + [addrCnt];
      addrCnt := addrCnt + 1;
    }
  }
}
