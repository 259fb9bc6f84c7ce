/** The global list of known peers (registry/registry.go). */
module Registry {
  import opened Collections

  function Add(peers: seq<string>, address: string): seq<string> {
    if address in peers then peers else peers + [address]
  }

  /** The list after registrations took the lock in the order `arrivals`. */
  function AddAll(peers: seq<string>, arrivals: seq<string>): seq<string> {
    if arrivals == [] then peers
    else Add(AddAll(peers, arrivals[..|arrivals| - 1]), arrivals[|arrivals| - 1])
  }

  class PeerRegistry {
    var peers: seq<string>

    constructor ()
      ensures peers == []
    {
      peers := [];
    }

    /** Scans the list under the lock and appends only an address that is not there. */
    method AddPeer(address: string)
      modifies this
      ensures peers == Add(old(peers), address)
    {
      var i := 0;
      while i < |peers|
        invariant 0 <= i <= |peers|
        invariant address !in peers[..i]
        invariant peers == old(peers)
      {
        if peers[i] == address {
          return;
        }
        i := i + 1;
      }
      peers := peers + [address];
    }
  }

  function FirstIndex(arrivals: seq<string>, a: string): (i: nat)
    requires a in arrivals
    ensures i < |arrivals| && arrivals[i] == a && a !in arrivals[..i]
  {
    if arrivals[0] == a then 0
    else
      var i := FirstIndex(arrivals[1..], a);
      assert arrivals[..i + 1] == [arrivals[0]] + arrivals[1..][..i];
      i + 1
  }

  lemma FirstIndexIsUnique(arrivals: seq<string>, a: string, i: nat)
    requires i < |arrivals| && arrivals[i] == a && a !in arrivals[..i]
    ensures a in arrivals && FirstIndex(arrivals, a) == i
  {
    var j := FirstIndex(arrivals, a);
    forall k | 0 <= k < i ensures arrivals[k] != a {
      assert arrivals[k] == arrivals[..i][k];
    }
    forall k | 0 <= k < j ensures arrivals[k] != a {
      assert arrivals[k] == arrivals[..j][k];
    }
  }

  lemma FirstIndexOfPrefix(arrivals: seq<string>, k: nat, a: string)
    requires k <= |arrivals| && a in arrivals[..k]
    ensures FirstIndex(arrivals, a) == FirstIndex(arrivals[..k], a) < k
  {
    var j := FirstIndex(arrivals[..k], a);
    assert arrivals[..k][..j] == arrivals[..j];
    FirstIndexIsUnique(arrivals, a, j);
  }

  /** However registrations interleave, the list holds each address once, in order of first arrival. */
  lemma {:induction false} FirstArrivalOrder(arrivals: seq<string>)
    ensures var peers := AddAll([], arrivals);
            && NoDuplicates(peers)
            && (forall a :: a in peers <==> a in arrivals)
            && (forall i, j :: 0 <= i < j < |peers| ==> FirstIndex(arrivals, peers[i]) < FirstIndex(arrivals, peers[j]))
  {
    if arrivals != [] {
      var n := |arrivals| - 1;
      var before, last := AddAll([], arrivals[..n]), arrivals[n];
      FirstArrivalOrder(arrivals[..n]);
      assert arrivals == arrivals[..n] + [last];
      forall a | a in before ensures FirstIndex(arrivals, a) == FirstIndex(arrivals[..n], a) < n {
        FirstIndexOfPrefix(arrivals, n, a);
      }
      if last !in before {
        FirstIndexIsUnique(arrivals, last, n);
      }
    }
  }

  /** A list read earlier is a prefix of every list read later. */
  lemma {:induction false} SnapshotsGrow(peers: seq<string>, first: seq<string>, more: seq<string>)
    ensures AddAll(peers, first) <= AddAll(peers, first + more)
  {
    if more == [] {
      assert first + more == first;
    } else {
      SnapshotsGrow(peers, first, more[..|more| - 1]);
      assert (first + more)[..|first + more| - 1] == first + more[..|more| - 1];
    }
  }
}
