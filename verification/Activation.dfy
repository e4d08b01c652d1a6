/**
 Escrow activation: which wallets the daemon names as providers, which regions a
 deployment is placed in, and what the contract makes of the providers.
 */
module Activation {
  import opened Common

  type Address = nat
  const ZERO: Address := 0

  type NodeId = seq<nat>

  datatype Ack = Ack(nodeId: string, success: bool)

  datatype Peer = Peer(id: NodeId, wallet: Address, region: string)

  /** What the router knows: the stake verifier's wallets, if there is one, and the peers. */
  datatype Directory = Directory(stakes: Option<map<NodeId, Address>>, peers: seq<Peer>)

  // ---------------------------------------------------------------- first distinct values

  /** The first `room` values of `xs` that are neither in `seen` nor repeated. */
  function FirstDistinct<T(==)>(xs: seq<T>, seen: set<T>, room: nat): (out: seq<T>)
    ensures |out| <= room
  {
    if xs == [] || room == 0 then []
    else if xs[0] in seen then FirstDistinct(xs[1..], seen, room)
    else [xs[0]] + FirstDistinct(xs[1..], seen + {xs[0]}, room - 1)
  }

  function FirstIndex<T(==)>(xs: seq<T>, x: T): (i: nat)
    requires x in xs
    ensures i < |xs| && xs[i] == x && x !in xs[..i]
  {
    if xs[0] == x then 0 else 1 + FirstIndex(xs[1..], x)
  }

  /** The values come from `xs` and are new. */
  lemma {:induction false} FirstDistinctIsFresh<T>(xs: seq<T>, seen: set<T>, room: nat, k: nat)
    requires k < |FirstDistinct(xs, seen, room)|
    ensures FirstDistinct(xs, seen, room)[k] in xs && FirstDistinct(xs, seen, room)[k] !in seen
  {
    if xs[0] in seen {
      FirstDistinctIsFresh(xs[1..], seen, room, k);
    } else if k > 0 {
      FirstDistinctIsFresh(xs[1..], seen + {xs[0]}, room - 1, k - 1);
    }
  }

  /** No value twice, and the values in order of their first occurrence. */
  lemma {:induction false} FirstDistinctIsOrdered<T>(xs: seq<T>, seen: set<T>, room: nat, i: nat, j: nat)
    requires i < j < |FirstDistinct(xs, seen, room)|
    ensures var out := FirstDistinct(xs, seen, room);
            out[i] != out[j] && out[i] in xs && out[j] in xs && FirstIndex(xs, out[i]) < FirstIndex(xs, out[j])
  {
    FirstDistinctIsFresh(xs, seen, room, i);
    FirstDistinctIsFresh(xs, seen, room, j);
    if xs[0] in seen {
      FirstDistinctIsOrdered(xs[1..], seen, room, i, j);
    } else if i > 0 {
      FirstDistinctIsFresh(xs[1..], seen + {xs[0]}, room - 1, i - 1);
      FirstDistinctIsFresh(xs[1..], seen + {xs[0]}, room - 1, j - 1);
      FirstDistinctIsOrdered(xs[1..], seen + {xs[0]}, room - 1, i - 1, j - 1);
    } else {
      FirstDistinctIsFresh(xs[1..], seen + {xs[0]}, room - 1, j - 1);
    }
  }

  /** A value is left out only when the room is used up by values that occur earlier. */
  lemma {:induction false} FirstDistinctSkipsNothing<T>(xs: seq<T>, seen: set<T>, room: nat, x: T)
    requires x in xs && x !in seen && x !in FirstDistinct(xs, seen, room)
    ensures var out := FirstDistinct(xs, seen, room);
            |out| == room && forall k :: 0 <= k < |out| ==> out[k] in xs && FirstIndex(xs, out[k]) < FirstIndex(xs, x)
  {
    if room > 0 {
      var out := FirstDistinct(xs, seen, room);
      if xs[0] in seen {
        FirstDistinctSkipsNothing(xs[1..], seen, room, x);
      } else {
        var rest := FirstDistinct(xs[1..], seen + {xs[0]}, room - 1);
        assert out[0] == xs[0] && out[1..] == rest;
        assert x !in rest;
        FirstDistinctSkipsNothing(xs[1..], seen + {xs[0]}, room - 1, x);
        forall k | 0 <= k < |out|
          ensures out[k] in xs && FirstIndex(xs, out[k]) < FirstIndex(xs, x)
        {
          if k > 0 {
            assert out[k] == rest[k - 1];
            FirstDistinctIsFresh(xs[1..], seen + {xs[0]}, room - 1, k - 1);
          }
        }
      }
    }
  }

  // ---------------------------------------------------------------- resolving a wallet

  function HexValue(c: char): Option<nat> {
    if '0' <= c <= '9' then Some(c as nat - '0' as nat)
    else if 'a' <= c <= 'f' then Some(c as nat - 'a' as nat + 10)
    else if 'A' <= c <= 'F' then Some(c as nat - 'A' as nat + 10)
    else None
  }

  /** 32 bytes in hexadecimal, as their 64 digits. */
  function ParseNodeId(s: string): Option<NodeId> {
    if |s| == 64 && forall i :: 0 <= i < 64 ==> HexValue(s[i]).Some?
    then Some(seq(64, i requires 0 <= i < 64 => HexValue(s[i]).value))
    else None
  }

  function HexDigit(n: nat): char
    requires n < 16
  {
    if n < 10 then '0' + n as char else 'a' + (n - 10) as char
  }

  /** A node ID as acks carry it. */
  function Hex(id: NodeId): string
    requires forall i :: 0 <= i < |id| ==> id[i] < 16
  {
    seq(|id|, i requires 0 <= i < |id| => HexDigit(id[i]))
  }

  /** What a node prints as its ID is read back as that ID, and nothing is read but 64 digits. */
  lemma NodeIdRoundTrip(id: NodeId)
    requires forall i :: 0 <= i < |id| ==> id[i] < 16
    ensures ParseNodeId(Hex(id)) == if |id| == 64 then Some(id) else None
  {
    forall i | 0 <= i < |id|
      ensures HexValue(Hex(id)[i]) == Some(id[i])
    {
      HexRoundTrip(id[i]);
    }
    if |id| == 64 {
      assert ParseNodeId(Hex(id)).Some? && ParseNodeId(Hex(id)).value == id;
    }
  }

  lemma HexRoundTrip(n: nat)
    requires n < 16
    ensures HexValue(HexDigit(n)) == Some(n)
  {
  }

  /** The first peer with that ID that has a wallet. */
  function PeerWallet(peers: seq<Peer>, id: NodeId): Address {
    if peers == [] then ZERO
    else if peers[0].id == id && peers[0].wallet != ZERO then peers[0].wallet
    else PeerWallet(peers[1..], id)
  }

  function WalletOf(dir: Directory, nodeId: string): Address {
    match ParseNodeId(nodeId)
    case None => ZERO
    case Some(id) =>
      if dir.stakes.Some? && id in dir.stakes.value && dir.stakes.value[id] != ZERO
      then dir.stakes.value[id]
      else PeerWallet(dir.peers, id)
  }

  /** A peer that can stand in for the stake of that node. */
  predicate HasWallet(peer: Peer, id: NodeId) {
    peer.id == id && peer.wallet != ZERO
  }

  lemma {:induction false} PeerWalletIsFirst(peers: seq<Peer>, id: NodeId)
    ensures PeerWallet(peers, id) == ZERO <==> forall i :: 0 <= i < |peers| ==> !HasWallet(peers[i], id)
    ensures PeerWallet(peers, id) != ZERO ==>
              exists i :: 0 <= i < |peers| && HasWallet(peers[i], id) && peers[i].wallet == PeerWallet(peers, id)
                          && forall j :: 0 <= j < i ==> !HasWallet(peers[j], id)
  {
    if peers != [] && !HasWallet(peers[0], id) {
      var rest := peers[1..];
      PeerWalletIsFirst(rest, id);
      assert forall i :: 0 < i < |peers| ==> peers[i] == rest[i - 1];
      if PeerWallet(peers, id) != ZERO {
        var i :| 0 <= i < |rest| && HasWallet(rest[i], id) && rest[i].wallet == PeerWallet(rest, id)
                 && forall j :: 0 <= j < i ==> !HasWallet(rest[j], id);
        assert HasWallet(peers[i + 1], id);
        assert forall j :: 0 <= j < i + 1 ==> !HasWallet(peers[j], id);
      }
    }
  }

  ghost predicate FirstPeerPays(peers: seq<Peer>, id: NodeId, wallet: Address) {
    exists i :: 0 <= i < |peers| && HasWallet(peers[i], id) && peers[i].wallet == wallet
                && forall j :: 0 <= j < i ==> !HasWallet(peers[j], id)
  }

  /** A staked wallet is used before any peer's; without one it is the first peer's that has any; nothing is found for what is no ID. */
  lemma StakeComesFirst(dir: Directory, nodeId: string)
    ensures var id, wallet := ParseNodeId(nodeId), WalletOf(dir, nodeId);
            && (id.None? ==> wallet == ZERO)
            && (id.Some? ==>
                  var staked := dir.stakes.Some? && id.value in dir.stakes.value && dir.stakes.value[id.value] != ZERO;
                  && (staked ==> wallet == dir.stakes.value[id.value])
                  && (!staked ==>
                        if wallet == ZERO then forall i :: 0 <= i < |dir.peers| ==> !HasWallet(dir.peers[i], id.value)
                        else FirstPeerPays(dir.peers, id.value, wallet)))
  {
    var id := ParseNodeId(nodeId);
    if id.Some? {
      PeerWalletIsFirst(dir.peers, id.value);
    }
  }

  method ResolveWallet(dir: Directory, nodeId: string) returns (wallet: Address)
    ensures wallet == WalletOf(dir, nodeId)
  {
    wallet := ZERO;
    var parsed := ParseNodeId(nodeId);
    if parsed.None? {
      return;
    }
    var id := parsed.value;
    if dir.stakes.Some? && id in dir.stakes.value {
      wallet := dir.stakes.value[id];
    }
    if wallet == ZERO {
      var i := 0;
      while i < |dir.peers|
        invariant 0 <= i <= |dir.peers|
        invariant wallet == ZERO && PeerWallet(dir.peers, id) == PeerWallet(dir.peers[i..], id)
      {
        if dir.peers[i].id == id && dir.peers[i].wallet != ZERO {
          wallet := dir.peers[i].wallet;
          return;
        }
        assert dir.peers[i..][1..] == dir.peers[i + 1..];
        i := i + 1;
      }
    }
  }

  // ---------------------------------------------------------------- the provider array

  /** The wallets that successful acks resolve to, in ack order. */
  function Candidates(dir: Directory, acks: seq<Ack>): seq<Address> {
    if acks == [] then []
    else
      var rest := Candidates(dir, acks[1..]);
      var wallet := WalletOf(dir, acks[0].nodeId);
      if acks[0].success && wallet != ZERO then [wallet] + rest else rest
  }

  function Pad(picked: seq<Address>): seq<Address>
    requires |picked| <= 2
  {
    picked + seq(2 - |picked|, _ => ZERO)
  }

  /** The local wallet, then the first two distinct candidates, then zero addresses. */
  function Providers(local: Address, dir: Directory, acks: seq<Ack>): seq<Address> {
    [local] + Pad(FirstDistinct(Candidates(dir, acks), {local}, 2))
  }

  lemma {:induction false} FirstDistinctSnoc<T>(xs: seq<T>, x: T, seen: set<T>, room: nat)
    ensures var out := FirstDistinct(xs, seen, room);
            FirstDistinct(xs + [x], seen, room) ==
              if |out| < room && x !in seen && x !in out then out + [x] else out
  {
    if xs == [] {
      assert [x][1..] == [];
    } else {
      assert (xs + [x])[0] == xs[0] && (xs + [x])[1..] == xs[1..] + [x];
      if room > 0 {
        if xs[0] in seen {
          FirstDistinctSnoc(xs[1..], x, seen, room);
        } else {
          FirstDistinctSnoc(xs[1..], x, seen + {xs[0]}, room - 1);
        }
      }
    }
  }

  lemma {:induction false} CandidatesSnoc(dir: Directory, acks: seq<Ack>, ack: Ack)
    ensures var wallet := WalletOf(dir, ack.nodeId);
            Candidates(dir, acks + [ack]) ==
              Candidates(dir, acks) + (if ack.success && wallet != ZERO then [wallet] else [])
  {
    if acks == [] {
      assert [ack][1..] == [];
    } else {
      assert (acks + [ack])[0] == acks[0] && (acks + [ack])[1..] == acks[1..] + [ack];
      CandidatesSnoc(dir, acks[1..], ack);
    }
  }

  lemma CandidatesOfNone(dir: Directory)
    ensures Candidates(dir, []) == []
  {
  }

  /** Fills the provider array in place, skipping failed, unresolvable, zero and repeated wallets. */
  method SelectProviders(local: Address, dir: Directory, acks: seq<Ack>) returns (providers: array<Address>)
    ensures fresh(providers) && providers[..] == Providers(local, dir, acks)
  {
    hide WalletOf, Candidates;
    CandidatesOfNone(dir);
    providers := new Address[3](_ => ZERO);
    providers[0] := local;
    var seen := {local};
    var idx := 1;
    ghost var picked := [];
    for i := 0 to |acks|
      invariant 1 <= idx <= 3 && |picked| == idx - 1
      invariant picked == FirstDistinct(Candidates(dir, acks[..i]), {local}, 2)
      invariant idx < 3 ==> seen == {local} + set x | x in picked
      invariant providers[0] == local
      invariant forall k :: 1 <= k < idx ==> providers[k] == picked[k - 1]
      invariant forall k :: idx <= k < 3 ==> providers[k] == ZERO
    {
      assert acks[..i + 1] == acks[..i] + [acks[i]];
      CandidatesSnoc(dir, acks[..i], acks[i]);
      var before := Candidates(dir, acks[..i]);
      var wallet := ResolveWallet(dir, acks[i].nodeId);
      if acks[i].success && wallet != ZERO {
        FirstDistinctSnoc(before, wallet, {local}, 2);
      } else {
        assert before + [] == before;
      }
      if !acks[i].success || idx >= 3 {
        continue;
      }
      if wallet == ZERO || wallet in seen {
        continue;
      }
      seen := seen + {wallet};
      providers[idx] := wallet;
      idx := idx + 1;
      picked := picked + [wallet];
    }
    assert acks[..|acks|] == acks;
  }

  // ---------------------------------------------------------------- the contract

  /** The contract takes three non-zero, pairwise distinct providers and reverts otherwise. */
  predicate ContractAccepts(providers: seq<Address>) {
    && |providers| == 3
    && providers[0] != ZERO && providers[1] != ZERO && providers[2] != ZERO
    && providers[0] != providers[1] && providers[0] != providers[2] && providers[1] != providers[2]
  }

  lemma {:induction false} CandidatesAreNonZero(dir: Directory, acks: seq<Ack>)
    ensures forall x :: x in Candidates(dir, acks) ==> x != ZERO
  {
    if acks != [] {
      CandidatesAreNonZero(dir, acks[1..]);
    }
  }

  /** Activation succeeds exactly if the local node has a wallet and two other wallets are among the candidates. */
  lemma AcceptedIffTwoMoreWallets(local: Address, dir: Directory, acks: seq<Ack>)
    ensures ContractAccepts(Providers(local, dir, acks)) <==>
              && local != ZERO
              && exists a, b :: a in Candidates(dir, acks) && b in Candidates(dir, acks) && a != b && a != local && b != local
  {
    var xs := Candidates(dir, acks);
    var out := FirstDistinct(xs, {local}, 2);
    CandidatesAreNonZero(dir, acks);
    if |out| == 2 {
      FirstDistinctIsFresh(xs, {local}, 2, 0);
      FirstDistinctIsFresh(xs, {local}, 2, 1);
      FirstDistinctIsOrdered(xs, {local}, 2, 0, 1);
    } else {
      forall a | a in xs && a != local
        ensures a in out
      {
        if a !in out {
          FirstDistinctSkipsNothing(xs, {local}, 2, a);
        }
      }
    }
  }

  // ---------------------------------------------------------------- the ack handler

  /** The tracker of a deployment that waits for its replicas. */
  class PendingDeployment {
    var acks: seq<Ack>
    var escrowActivated: bool

    constructor ()
      ensures acks == [] && !escrowActivated
    {
      acks := [];
      escrowActivated := false;
    }

    /** One ack arrives; the result is the snapshot to activate with, if this ack activates. */
    method HandleAck(ack: Ack) returns (snapshot: Option<seq<Ack>>)
      modifies this
      ensures (acks, escrowActivated, snapshot) == Handle(old(acks), old(escrowActivated), ack)
    {
      snapshot := None;
      acks := acks + [ack];
      if ack.success && !escrowActivated {
        escrowActivated := true;
        snapshot := Some(acks);
      }
    }
  }

  function Handle(acks: seq<Ack>, activated: bool, ack: Ack): (seq<Ack>, bool, Option<seq<Ack>>) {
    var all := acks + [ack];
    if ack.success && !activated then (all, true, Some(all)) else (all, activated, None)
  }

  /** The snapshots passed to activation while the acks of `incoming` arrive. */
  function Activations(acks: seq<Ack>, activated: bool, incoming: seq<Ack>): seq<seq<Ack>>
    decreases |incoming|
  {
    if incoming == [] then []
    else
      var (acks', activated', snapshot) := Handle(acks, activated, incoming[0]);
      (if snapshot.Some? then [snapshot.value] else []) + Activations(acks', activated', incoming[1..])
  }

  function Successes(acks: seq<Ack>): nat {
    if acks == [] then 0 else (if acks[0].success then 1 else 0) + Successes(acks[1..])
  }

  lemma {:induction false} SuccessesSnoc(acks: seq<Ack>, ack: Ack)
    ensures Successes(acks + [ack]) == Successes(acks) + if ack.success then 1 else 0
  {
    if acks == [] {
      assert [ack][1..] == [];
    } else {
      assert (acks + [ack])[0] == acks[0] && (acks + [ack])[1..] == acks[1..] + [ack];
      SuccessesSnoc(acks[1..], ack);
    }
  }

  /** At most one activation, and its snapshot holds exactly one successful ack. */
  lemma {:induction false} ActivatesOnceOnTheFirstSuccess(acks: seq<Ack>, activated: bool, incoming: seq<Ack>)
    requires !activated ==> Successes(acks) == 0
    ensures |Activations(acks, activated, incoming)| <= if activated then 0 else 1
    ensures forall s :: s in Activations(acks, activated, incoming) ==> Successes(s) == 1
    decreases |incoming|
  {
    if incoming != [] {
      var (acks', activated', snapshot) := Handle(acks, activated, incoming[0]);
      SuccessesSnoc(acks, incoming[0]);
      ActivatesOnceOnTheFirstSuccess(acks', activated', incoming[1..]);
    }
  }

  lemma {:induction false} CandidatesAreSuccesses(dir: Directory, acks: seq<Ack>)
    ensures |Candidates(dir, acks)| <= Successes(acks)
  {
    if acks != [] {
      CandidatesAreSuccesses(dir, acks[1..]);
    }
  }

  /** The acks at the moment the first success arrived. */
  predicate IsSnapshot(acks: seq<Ack>) {
    acks != [] && acks[|acks| - 1].success && Successes(acks) == 1
  }

  lemma QuietAck(acks: seq<Ack>, ack: Ack, rest: seq<Ack>)
    requires !ack.success
    ensures Activations(acks, false, [ack] + rest) == Activations(acks + [ack], false, rest)
  {
    assert ([ack] + rest)[1..] == rest;
  }

  lemma FirstSuccess(acks: seq<Ack>, ack: Ack)
    requires ack.success
    ensures Activations(acks, false, [ack]) == [acks + [ack]]
  {
    assert [ack][1..] == [];
    assert Activations(acks + [ack], true, []) == [];
  }

  lemma {:induction false} NoSuccessNoActivation(acks: seq<Ack>, incoming: seq<Ack>, last: Ack)
    requires Successes(incoming) == 0 && last.success
    ensures Activations(acks, false, incoming + [last]) == [acks + incoming + [last]]
    decreases |incoming|
  {
    hide Activations;
    if incoming == [] {
      assert incoming + [last] == [last] && acks + incoming + [last] == acks + [last];
      FirstSuccess(acks, last);
    } else {
      var first, rest := incoming[0], incoming[1..];
      assert incoming + [last] == [first] + (rest + [last]);
      QuietAck(acks, first, rest + [last]);
      NoSuccessNoActivation(acks + [first], rest, last);
      assert acks + [first] + rest + [last] == acks + incoming + [last];
    }
  }

  lemma {:induction false} ActivatesWithSnapshots(acks: seq<Ack>, activated: bool, incoming: seq<Ack>, snapshot: seq<Ack>)
    requires (!activated ==> Successes(acks) == 0) && snapshot in Activations(acks, activated, incoming)
    ensures IsSnapshot(snapshot)
    decreases |incoming|
  {
    var (acks', activated', first) := Handle(acks, activated, incoming[0]);
    SuccessesSnoc(acks, incoming[0]);
    if first != Some(snapshot) {
      ActivatesWithSnapshots(acks', activated', incoming[1..], snapshot);
    }
  }

  /** Some sequence of acks makes the handler activate with exactly these if and only if they end in their one success. */
  lemma SnapshotIff(snapshot: seq<Ack>)
    ensures IsSnapshot(snapshot) <==> exists incoming :: snapshot in Activations([], false, incoming)
  {
    if IsSnapshot(snapshot) {
      var before, last := snapshot[..|snapshot| - 1], snapshot[|snapshot| - 1];
      assert snapshot == before + [last];
      SuccessesSnoc(before, last);
      NoSuccessNoActivation([], before, last);
      assert [] + before + [last] == snapshot;
      assert snapshot in Activations([], false, snapshot);
    }
    if incoming :| snapshot in Activations([], false, incoming) {
      ActivatesWithSnapshots([], false, incoming, snapshot);
    }
  }

  lemma SnapshotIsRefused(local: Address, dir: Directory, snapshot: seq<Ack>)
    requires IsSnapshot(snapshot)
    ensures |Providers(local, dir, snapshot)| == 3 && Providers(local, dir, snapshot)[2] == ZERO
    ensures !ContractAccepts(Providers(local, dir, snapshot))
  {
    CandidatesAreSuccesses(dir, snapshot);
    var xs := Candidates(dir, snapshot);
    var out := FirstDistinct(xs, {local}, 2);
    if |out| == 2 {
      FirstDistinctIsOrdered(xs, {local}, 2, 0, 1);
    }
  }

  /**
   The activation the daemon attempts is never accepted: it happens on the first
   successful ack, when at most one other wallet is known, so the third provider
   is the zero address, for every sequence of acks and every directory.
   */
  lemma ActivationIsNeverAccepted(local: Address, dir: Directory, incoming: seq<Ack>, snapshot: seq<Ack>)
    requires snapshot in Activations([], false, incoming)
    ensures |Providers(local, dir, snapshot)| == 3 && Providers(local, dir, snapshot)[2] == ZERO
    ensures !ContractAccepts(Providers(local, dir, snapshot))
  {
    SnapshotIff(snapshot);
    SnapshotIsRefused(local, dir, snapshot);
  }

  // ---------------------------------------------------------------- regions

  /** A peer of unknown region counts as local. */
  function PeerRegions(local: string, peers: seq<Peer>): seq<string> {
    if peers == [] then []
    else
      [if peers[0].region == "" || peers[0].region == "Unknown" then local else peers[0].region]
      + PeerRegions(local, peers[1..])
  }

  function Regions(local: string, peers: seq<Peer>): seq<string> {
    [local] + FirstDistinct(PeerRegions(local, peers), {local}, 2)
  }

  lemma {:induction false} PeerRegionsSnoc(local: string, peers: seq<Peer>, peer: Peer)
    ensures PeerRegions(local, peers + [peer]) ==
              PeerRegions(local, peers) + [if peer.region == "" || peer.region == "Unknown" then local else peer.region]
  {
    if peers == [] {
      assert [peer][1..] == [];
    } else {
      assert (peers + [peer])[0] == peers[0] && (peers + [peer])[1..] == peers[1..] + [peer];
      PeerRegionsSnoc(local, peers[1..], peer);
    }
  }

  method DetermineDeploymentRegions(local: string, peers: seq<Peer>) returns (regions: seq<string>)
    ensures regions == Regions(local, peers)
  {
    regions := [local];
    var seen := {local};
    ghost var picked := [];
    for i := 0 to |peers|
      invariant regions == [local] + picked
      invariant picked == FirstDistinct(PeerRegions(local, peers[..i]), {local}, 2)
      invariant seen == {local} + set x | x in picked
    {
      assert peers[..i + 1] == peers[..i] + [peers[i]];
      PeerRegionsSnoc(local, peers[..i], peers[i]);
      var region := peers[i].region;
      if region == "" || region == "Unknown" {
        region := local;
      }
      FirstDistinctSnoc(PeerRegions(local, peers[..i]), region, {local}, 2);
      if region !in seen && |regions| < 3 {
        regions := regions + [region];
        seen := seen + {region};
        picked := picked + [region];
      }
    }
    assert peers[..|peers|] == peers;
  }

  /** The peer says where it is. */
  predicate IsLocated(peer: Peer) {
    peer.region != "" && peer.region != "Unknown"
  }

  lemma {:induction false} PeerRegionsAre(local: string, peers: seq<Peer>, region: string)
    requires region != local
    ensures region in PeerRegions(local, peers) <==> exists i :: 0 <= i < |peers| && IsLocated(peers[i]) && peers[i].region == region
  {
    if peers != [] {
      var rest := peers[1..];
      PeerRegionsAre(local, rest, region);
      assert forall i :: 0 < i < |peers| ==> peers[i] == rest[i - 1];
      if i :| 0 <= i < |rest| && IsLocated(rest[i]) && rest[i].region == region {
        assert peers[i + 1] == rest[i];
      }
    }
  }

  /** Some peer says it is in the region. */
  ghost predicate IsNamed(peers: seq<Peer>, region: string) {
    exists i :: 0 <= i < |peers| && IsLocated(peers[i]) && peers[i].region == region
  }

  lemma RegionIsNamed(local: string, peers: seq<Peer>, k: nat)
    requires 0 < k < |Regions(local, peers)|
    ensures IsNamed(peers, Regions(local, peers)[k]) && Regions(local, peers)[k] != local
  {
    FirstDistinctIsFresh(PeerRegions(local, peers), {local}, 2, k - 1);
    PeerRegionsAre(local, peers, Regions(local, peers)[k]);
  }

  lemma NamedIsRegion(local: string, peers: seq<Peer>, region: string)
    requires IsNamed(peers, region) && |Regions(local, peers)| < 3
    ensures region in Regions(local, peers)
  {
    var xs := PeerRegions(local, peers);
    var out := FirstDistinct(xs, {local}, 2);
    if region != local {
      PeerRegionsAre(local, peers, region);
      if region !in out {
        FirstDistinctSkipsNothing(xs, {local}, 2, region);
      }
    }
  }

  /**
   One to three distinct regions: the local one first, then regions that peers say
   they are in, short of three only when the peers have no more.
   */
  lemma RegionsAreDistinct(local: string, peers: seq<Peer>)
    ensures var regions := Regions(local, peers);
            && 1 <= |regions| <= 3 && regions[0] == local
            && (forall i, j :: 0 <= i < j < |regions| ==> regions[i] != regions[j])
            && (forall k :: 0 < k < |regions| ==> IsNamed(peers, regions[k]))
            && (|regions| < 3 ==> forall region :: IsNamed(peers, region) ==> region in regions)
  {
    hide FirstDistinct, PeerRegions, IsNamed;
    var regions, xs := Regions(local, peers), PeerRegions(local, peers);
    forall k | 0 < k < |regions|
      ensures IsNamed(peers, regions[k]) && regions[k] != local
    {
      RegionIsNamed(local, peers, k);
    }
    if |regions| == 3 {
      FirstDistinctIsOrdered(xs, {local}, 2, 0, 1);
    }
    forall region | IsNamed(peers, region) && |regions| < 3
      ensures region in regions
    {
      NamedIsRegion(local, peers, region);
    }
  }
}
