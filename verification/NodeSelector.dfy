/** Choosing the node a clone goes to: the region, the ranking of peers, the pick. */
module NodeSelector {
  import opened Common

  datatype Tier = Confidential | Standard | OtherTier

  datatype Node = Node(id: string, region: string, lastSeen: int, tier: Tier, containerRuntime: bool, torSupport: bool)

  datatype Candidate = Candidate(node: Node, score: real)

  datatype Error = NoSelector | NoDht | NoPeers | NoSuitableNodes | LookupFailed

  const MINUTE: int := 60_000_000_000

  // ---------------------------------------------------------------- scores

  function Continent(region: string): Option<string> {
    if region in {"americas", "us-east", "us-west", "sa-east"} then Some("americas")
    else if region in {"europe", "eu-west", "eu-central"} then Some("europe")
    else if region in {"asia_pacific", "ap-southeast", "ap-northeast", "ap-south"} then Some("asia")
    else if region == "middle_east" then Some("middle_east")
    else if region == "africa" then Some("africa")
    else None
  }

  predicate IsSameContinent(a: string, b: string) {
    Continent(a).Some? && Continent(a) == Continent(b)
  }

  function RegionBonus(region: string, target: string): real {
    if target == "" || target == "random" then 0.0
    else if region == target then 10.0
    else if IsSameContinent(region, target) then 5.0
    else 0.0
  }

  function FreshnessBonus(since: int): real {
    if since < MINUTE then 3.0
    else if since < 5 * MINUTE then 2.0
    else if since < 15 * MINUTE then 1.0
    else 0.0
  }

  function TierBonus(tier: Tier): real {
    match tier
    case Confidential => 5.0
    case Standard => 2.0
    case OtherTier => 0.0
  }

  /** A draw of the random generator, uniform below one. */
  predicate IsDraw(x: real) {
    0.0 <= x < 1.0
  }

  function Score(node: Node, target: string, now: int, draw: real): real {
    1.0 + RegionBonus(node.region, target) + FreshnessBonus(now - node.lastSeen) + TierBonus(node.tier)
    + (if node.torSupport then 1.0 else 0.0) + draw * 0.5
  }

  predicate IsSpecific(target: string) {
    target != "" && target != "random"
  }

  predicate IsNear(region: string, target: string) {
    region == target || IsSameContinent(region, target)
  }

  /** How many of the marks of one, five and fifteen minutes have passed. */
  function Staleness(since: int): nat {
    Bit(since >= MINUTE) + Bit(since >= 5 * MINUTE) + Bit(since >= 15 * MINUTE)
  }

  /** All else equal, each of those marks costs a node one point, so a fresher node never scores lower. */
  lemma FresherScoresHigher(node: Node, seen: int, target: string, now: int, draw: real)
    ensures var other := node.(lastSeen := seen);
            && Score(node, target, now, draw) - Score(other, target, now, draw) ==
                 Staleness(now - seen) as real - Staleness(now - node.lastSeen) as real
            && (node.lastSeen >= seen ==> Score(node, target, now, draw) >= Score(other, target, now, draw))
  {
  }

  /** All else equal, stronger isolation, Tor and a closer region each raise the score, and a closer region counts most. */
  lemma BonusesAdd(node: Node, target: string, now: int, draw: real, near: string, far: string)
    requires IsSpecific(target) && near != target && IsSameContinent(near, target) && !IsNear(far, target)
    ensures var score := (tier: Tier, region: string, tor: bool) =>
                           Score(node.(tier := tier, region := region, torSupport := tor), target, now, draw);
            && (forall region, tor :: score(Confidential, region, tor) == score(Standard, region, tor) + 3.0)
            && (forall region, tor :: score(Standard, region, tor) == score(OtherTier, region, tor) + 2.0)
            && (forall tier, region :: score(tier, region, true) == score(tier, region, false) + 1.0)
            && (forall tier, tor :: score(tier, target, tor) == score(tier, near, tor) + 5.0)
            && (forall tier, tor :: score(tier, near, tor) == score(tier, far, tor) + 5.0)
  {
  }

  /** The score without the draw is a whole number. */
  lemma PointsAreWhole(node: Node, target: string, now: int) returns (points: int)
    ensures Score(node, target, now, 0.0) == points as real
  {
    points := 1
              + (if !IsSpecific(target) then 0 else if node.region == target then 10 else if IsSameContinent(node.region, target) then 5 else 0)
              + 3 - Staleness(now - node.lastSeen)
              + (match node.tier case Confidential => 5 case Standard => 2 case OtherTier => 0)
              + Bit(node.torSupport);
  }

  /** Chance decides between equals only: no two draws reverse what the bonuses decide. */
  lemma ChanceOnlyBreaksTies(a: Node, b: Node, target: string, now: int, draw: real, other: real)
    requires IsDraw(draw) && IsDraw(other) && Score(a, target, now, 0.0) > Score(b, target, now, 0.0)
    ensures Score(a, target, now, draw) > Score(b, target, now, other)
  {
    var x := PointsAreWhole(a, target, now);
    var y := PointsAreWhole(b, target, now);
    assert Score(a, target, now, draw) == Score(a, target, now, 0.0) + draw * 0.5;
    assert Score(b, target, now, other) == Score(b, target, now, 0.0) + other * 0.5;
  }

  /** Being on one continent is symmetric and transitive, and reflexive for the regions that are on the map. */
  lemma ContinentsPartition(a: string, b: string, c: string)
    ensures IsSameContinent(a, b) <==> IsSameContinent(b, a)
    ensures IsSameContinent(a, b) && IsSameContinent(b, c) ==> IsSameContinent(a, c)
    ensures IsSameContinent(a, a) <==> exists x :: IsSameContinent(a, x)
  {
    assert IsSameContinent(a, b) ==> IsSameContinent(a, a);
  }

  /** Freshness, tier, Tor and chance together never make up for being on another continent. */
  lemma ExactOutranksFar(exact: Node, far: Node, target: string, now: int, draw: real, other: real)
    requires IsSpecific(target) && exact.region == target && !IsNear(far.region, target) && IsDraw(draw) && IsDraw(other)
    ensures Score(exact, target, now, draw) > Score(far, target, now, other)
  {
  }

  /** They can make up for being elsewhere on the same continent. */
  lemma NearCanOutrankExact(now: int, draw: real, other: real)
    requires IsDraw(draw) && IsDraw(other)
    ensures var exact := Node("a", "us-east", now - 15 * MINUTE, OtherTier, true, false);
            var near := Node("b", "us-west", now, Confidential, true, true);
            Score(near, "us-east", now, other) > Score(exact, "us-east", now, draw)
  {
    var exact := Node("a", "us-east", now - 15 * MINUTE, OtherTier, true, false);
    var near := Node("b", "us-west", now, Confidential, true, true);
    assert Score(exact, "us-east", now, draw) == 11.0 + draw * 0.5;
    assert "us-west" != "us-east" by {
      assert "us-west"[3] != "us-east"[3];
    }
    assert Score(near, "us-east", now, other) == 15.0 + other * 0.5;
  }

  // ---------------------------------------------------------------- ranking

  predicate IsEligible(node: Node, excluded: set<string>) {
    node.id !in excluded && node.containerRuntime
  }

  /** The peers that may run the clone, in peer order, each with its score. */
  function Candidates(peers: seq<Node>, draws: seq<real>, excluded: set<string>, target: string, now: int): seq<Candidate>
    requires |draws| == |peers|
  {
    if peers == [] then []
    else
      var n := |peers| - 1;
      Candidates(peers[..n], draws[..n], excluded, target, now) +
      if IsEligible(peers[n], excluded) then [Candidate(peers[n], Score(peers[n], target, now, draws[n]))] else []
  }

  /** Only peers with a container runtime that are not excluded are candidates. */
  lemma {:induction false} CandidateMayRun(peers: seq<Node>, draws: seq<real>, excluded: set<string>, target: string, now: int, c: Candidate)
    requires |draws| == |peers| && c in Candidates(peers, draws, excluded, target, now)
    ensures c.node in peers && c.node.containerRuntime && c.node.id !in excluded
  {
    var n := |peers| - 1;
    if c in Candidates(peers[..n], draws[..n], excluded, target, now) {
      CandidateMayRun(peers[..n], draws[..n], excluded, target, now, c);
    }
  }

  predicate Descending(cs: seq<Candidate>) {
    forall i, j :: 0 <= i < j < |cs| ==> cs[i].score >= cs[j].score
  }

  /** Puts a candidate before the first one it outranks. */
  method Insert(cs: seq<Candidate>, c: Candidate) returns (sorted: seq<Candidate>)
    requires Descending(cs)
    ensures Descending(sorted) && multiset(sorted) == multiset(cs) + multiset{c}
  {
    var k := 0;
    while k < |cs| && cs[k].score >= c.score
      invariant 0 <= k <= |cs|
      invariant forall i :: 0 <= i < k ==> cs[i].score >= c.score
    {
      k := k + 1;
    }
    sorted := cs[..k] + [c] + cs[k..];
    assert cs == cs[..k] + cs[k..];
  }

  method SortByScore(cs: seq<Candidate>) returns (sorted: seq<Candidate>)
    ensures Descending(sorted) && multiset(sorted) == multiset(cs)
  {
    sorted := [];
    for i := 0 to |cs|
      invariant Descending(sorted) && multiset(sorted) == multiset(cs[..i])
    {
      assert cs[..i + 1] == cs[..i] + [cs[i]];
      sorted := Insert(sorted, cs[i]);
    }
    assert cs[..|cs|] == cs;
  }

  function Nodes(cs: seq<Candidate>): (nodes: seq<Node>)
    ensures |nodes| == |cs|
    ensures forall i :: 0 <= i < |cs| ==> nodes[i] == cs[i].node
  {
    seq(|cs|, i requires 0 <= i < |cs| => cs[i].node)
  }

  const MAX_NODES: nat := 5

  function Top(ranked: seq<Candidate>): seq<Candidate> {
    if |ranked| <= MAX_NODES then ranked else ranked[..MAX_NODES]
  }

  ghost predicate Ranks(ranked: seq<Candidate>, cs: seq<Candidate>) {
    Descending(ranked) && multiset(ranked) == multiset(cs)
  }

  function Excluded(excludeNodes: seq<string>, localNode: Option<string>): set<string> {
    (set id | id in excludeNodes) + if localNode.Some? then {localNode.value} else {}
  }

  method BuildExclusions(excludeNodes: seq<string>, localNode: Option<string>) returns (excluded: set<string>)
    ensures excluded == Excluded(excludeNodes, localNode)
  {
    excluded := {};
    for i := 0 to |excludeNodes|
      invariant excluded == set id | id in excludeNodes[..i]
    {
      assert excludeNodes[..i + 1] == excludeNodes[..i] + [excludeNodes[i]];
      excluded := excluded + {excludeNodes[i]};
    }
    assert excludeNodes[..|excludeNodes|] == excludeNodes;
    if localNode.Some? {
      excluded := excluded + {localNode.value};
    }
  }

  method ScoreCandidates(peers: seq<Node>, draws: seq<real>, excluded: set<string>, target: string, now: int)
    returns (candidates: seq<Candidate>)
    requires |draws| == |peers|
    ensures candidates == Candidates(peers, draws, excluded, target, now)
  {
    candidates := [];
    for i := 0 to |peers|
      invariant candidates == Candidates(peers[..i], draws[..i], excluded, target, now)
    {
      assert peers[..i + 1][..i] == peers[..i] && draws[..i + 1][..i] == draws[..i];
      if peers[i].id !in excluded && peers[i].containerRuntime {
        candidates := candidates + [Candidate(peers[i], Score(peers[i], target, now, draws[i]))];
      }
    }
    assert peers[..|peers|] == peers && draws[..|draws|] == draws;
  }

  /** `ranked` is the sorted candidate slice; the result lists the nodes at its head. */
  method FindNodes(hasDht: bool, peers: seq<Node>, localNode: Option<string>, draws: seq<real>, target: string,
                   excludeNodes: seq<string>, now: int)
    returns (result: Result<seq<Node>, Error>, ranked: seq<Candidate>)
    requires |draws| == |peers|
    ensures !hasDht <==> result == Err(NoDht)
    ensures hasDht && peers == [] <==> result == Err(NoPeers)
    ensures var cs := Candidates(peers, draws, Excluded(excludeNodes, localNode), target, now);
            && (hasDht && peers != [] && cs == [] <==> result == Err(NoSuitableNodes))
            && (hasDht && peers != [] && cs != [] <==> result.Ok?)
            && (result.Ok? ==> Ranks(ranked, cs) && result.value == Nodes(Top(ranked)))
            && (result.Ok? ==> |result.value| == if |cs| < 5 then |cs| else 5)
    ensures result.Ok? ==> forall node :: node in result.value ==>
              node in peers && node.containerRuntime && node.id !in excludeNodes && localNode != Some(node.id)
  {
    ranked := [];
    if !hasDht {
      return Err(NoDht), ranked;
    }
    if |peers| == 0 {
      return Err(NoPeers), ranked;
    }
    var excluded := BuildExclusions(excludeNodes, localNode);
    var candidates := ScoreCandidates(peers, draws, excluded, target, now);
    if |candidates| == 0 {
      return Err(NoSuitableNodes), ranked;
    }
    ranked := SortByScore(candidates);
    assert |multiset(ranked)| == |ranked|;
    forall i | 0 <= i < |Top(ranked)|
      ensures var node := ranked[i].node;
              node in peers && node.containerRuntime && node.id !in excludeNodes && localNode != Some(node.id)
    {
      assert ranked[i] in multiset(ranked);
      CandidateMayRun(peers, draws, excluded, target, now, ranked[i]);
    }
    result := Ok(Nodes(Top(ranked)));
  }

  // ---------------------------------------------------------------- what the ranking guarantees

  ghost predicate IsScored(c: Candidate, peers: seq<Node>, excluded: set<string>, target: string, now: int) {
    && c.node in peers
    && IsEligible(c.node, excluded)
    && exists draw :: IsDraw(draw) && c.score == Score(c.node, target, now, draw)
  }

  predicate AllDraws(draws: seq<real>) {
    forall k :: 0 <= k < |draws| ==> IsDraw(draws[k])
  }

  lemma {:induction false} CandidatesAreScored(peers: seq<Node>, draws: seq<real>, excluded: set<string>, target: string,
                                               now: int, c: Candidate)
    requires |draws| == |peers| && AllDraws(draws) && c in Candidates(peers, draws, excluded, target, now)
    ensures IsScored(c, peers, excluded, target, now)
  {
    var n := |peers| - 1;
    if c in Candidates(peers[..n], draws[..n], excluded, target, now) {
      CandidatesAreScored(peers[..n], draws[..n], excluded, target, now, c);
    } else {
      assert IsDraw(draws[n]);
    }
  }

  lemma {:induction false} EligibleIsCandidate(peers: seq<Node>, draws: seq<real>, excluded: set<string>, target: string,
                                               now: int, node: Node)
    requires |draws| == |peers| && node in peers && IsEligible(node, excluded)
    ensures exists c :: c in Candidates(peers, draws, excluded, target, now) && c.node == node
  {
    var n := |peers| - 1;
    if peers[n] == node {
      assert Candidate(node, Score(node, target, now, draws[n])) in Candidates(peers, draws, excluded, target, now);
    } else {
      assert peers == peers[..n] + [peers[n]];
      EligibleIsCandidate(peers[..n], draws[..n], excluded, target, now, node);
      var c :| c in Candidates(peers[..n], draws[..n], excluded, target, now) && c.node == node;
      assert c in Candidates(peers, draws, excluded, target, now);
    }
  }

  lemma ScoredOutranks(exact: Candidate, far: Candidate, peers: seq<Node>, excluded: set<string>, target: string, now: int)
    requires IsScored(exact, peers, excluded, target, now) && IsScored(far, peers, excluded, target, now)
    requires IsSpecific(target) && exact.node.region == target && !IsNear(far.node.region, target)
    ensures exact.score > far.score
  {
    var draw :| IsDraw(draw) && exact.score == Score(exact.node, target, now, draw);
    var other :| IsDraw(other) && far.score == Score(far.node, target, now, other);
    ExactOutranksFar(exact.node, far.node, target, now, draw, other);
  }

  /**
   For every peer list, every draw and every way of sorting by score: ahead of a
   node in the requested region there are only nodes of that region or its continent.
   */
  lemma OnlyNearPrecedeExact(peers: seq<Node>, draws: seq<real>, excluded: set<string>, target: string, now: int,
                             ranked: seq<Candidate>, i: nat, j: nat)
    requires |draws| == |peers| && AllDraws(draws) && IsSpecific(target)
    requires Ranks(ranked, Candidates(peers, draws, excluded, target, now))
    requires i < j < |ranked| && ranked[j].node.region == target
    ensures IsNear(ranked[i].node.region, target)
  {
    var cs := Candidates(peers, draws, excluded, target, now);
    assert ranked[i] in multiset(cs) && ranked[j] in multiset(cs);
    CandidatesAreScored(peers, draws, excluded, target, now, ranked[i]);
    CandidatesAreScored(peers, draws, excluded, target, now, ranked[j]);
    if !IsNear(ranked[i].node.region, target) {
      ScoredOutranks(ranked[j], ranked[i], peers, excluded, target, now);
    }
  }

  /** If some eligible peer is in the requested region, the node picked is in that region or on its continent. */
  lemma PickIsNear(peers: seq<Node>, draws: seq<real>, excluded: set<string>, target: string, now: int,
                   ranked: seq<Candidate>, node: Node)
    requires |draws| == |peers| && AllDraws(draws) && IsSpecific(target)
    requires Ranks(ranked, Candidates(peers, draws, excluded, target, now))
    requires node in peers && IsEligible(node, excluded) && node.region == target
    ensures ranked != [] && IsNear(ranked[0].node.region, target)
  {
    var cs := Candidates(peers, draws, excluded, target, now);
    EligibleIsCandidate(peers, draws, excluded, target, now, node);
    var c :| c in cs && c.node == node;
    assert c in multiset(ranked);
    var j :| 0 <= j < |ranked| && ranked[j] == c;
    if j > 0 {
      OnlyNearPrecedeExact(peers, draws, excluded, target, now, ranked, 0, j);
    }
  }

  // ---------------------------------------------------------------- the region

  /** The first preferred region that differs from the given one, which stays if there is none. */
  function FirstOther(preferred: seq<string>, region: string): string {
    if preferred == [] then region
    else if preferred[0] != region then preferred[0]
    else FirstOther(preferred[1..], region)
  }

  lemma {:induction false} FirstOtherDiffers(preferred: seq<string>, region: string)
    ensures FirstOther(preferred, region) == region <==> forall i :: 0 <= i < |preferred| ==> preferred[i] == region
    ensures FirstOther(preferred, region) != region ==> FirstOther(preferred, region) in preferred
  {
    if preferred != [] && preferred[0] == region {
      var rest := preferred[1..];
      FirstOtherDiffers(rest, region);
      assert forall i :: 0 <= i < |rest| ==> rest[i] == preferred[i + 1];
      if FirstOther(preferred, region) == region {
        forall i | 0 <= i < |preferred|
          ensures preferred[i] == region
        {
          if i > 0 {
            assert preferred[i] == rest[i - 1];
          }
        }
      }
    }
  }

  /** Replacing the region three times over gives what replacing it once gives. */
  lemma ThirdChoiceIsFirst(preferred: seq<string>, region: string)
    ensures FirstOther(preferred, FirstOther(preferred, FirstOther(preferred, region))) == FirstOther(preferred, region)
  {
    if preferred != [] {
      var head := preferred[0];
      FirstOtherDiffers(preferred, region);
      FirstOtherDiffers(preferred, head);
      if head == region {
        assert FirstOther(preferred, head) == head || FirstOther(preferred, FirstOther(preferred, head)) == head;
      } else {
        assert FirstOther(preferred, region) == head;
        assert FirstOther(preferred, head) == head || FirstOther(preferred, FirstOther(preferred, head)) == head;
      }
    }
  }

  const REGIONS := ["americas", "europe", "asia_pacific"]

  /**
   The three passes over the default regions end where the first one does: a
   requested region is kept; otherwise it is the first preferred region that is
   not the word that was asked with, or the first default one without preferences.
   */
  method DetermineRegion(requested: string, preferred: seq<string>) returns (region: string)
    ensures region ==
              if IsSpecific(requested) then requested
              else if preferred == [] then "americas"
              else FirstOther(preferred, requested)
  {
    region := requested;
    if region == "random" || region == "" {
      var i := 0;
      var stop := false;
      while i < |REGIONS| && !stop
        invariant 0 <= i <= 3
        invariant stop <==> preferred == [] && i > 0
        invariant stop ==> region == "americas"
        invariant preferred != [] ==> region == Choice(preferred, requested, i)
        decreases |REGIONS| - i
      {
        if |preferred| > 0 {
          region := ReplaceRegion(preferred, region);
        } else {
          region := REGIONS[i];
          stop := true;
        }
        i := i + 1;
      }
      if preferred != [] {
        assert Choice(preferred, requested, 1) == FirstOther(preferred, requested);
        assert Choice(preferred, requested, 2) == FirstOther(preferred, FirstOther(preferred, requested));
        ThirdChoiceIsFirst(preferred, requested);
      }
    }
  }

  function Choice(preferred: seq<string>, requested: string, passes: nat): string {
    if passes == 0 then requested else FirstOther(preferred, Choice(preferred, requested, passes - 1))
  }

  /** The inner loop over the preferred regions. */
  method ReplaceRegion(preferred: seq<string>, region: string) returns (replaced: string)
    ensures replaced == FirstOther(preferred, region)
  {
    replaced := region;
    for k := 0 to |preferred|
      invariant replaced == region
      invariant FirstOther(preferred, region) == FirstOther(preferred[k..], region)
    {
      assert preferred[k..][1..] == preferred[k + 1..];
      if preferred[k] != replaced {
        replaced := preferred[k];
        return;
      }
    }
  }

  // ---------------------------------------------------------------- the pick

  /**
   The node asked for by id if there is one, otherwise the best ranked peer for
   the region: near the requested region whenever some eligible peer is in it.
   */
  method SelectTargetNode(hasSelector: bool, byId: Option<Result<Node, Error>>, requested: string, preferred: seq<string>,
                          hasDht: bool, peers: seq<Node>, localNode: Option<string>, draws: seq<real>, now: int)
    returns (result: Result<Node, Error>, region: string)
    requires |draws| == |peers| && AllDraws(draws)
    ensures !hasSelector ==> result == Err(NoSelector)
    ensures hasSelector && byId.Some? ==> result == byId.value
    ensures hasSelector && byId.None? ==>
              var excluded := if localNode.Some? then {localNode.value} else {};
              && (IsSpecific(requested) ==> region == requested)
              && (!IsSpecific(requested) && preferred != [] ==> region == FirstOther(preferred, requested))
              && (result.Ok? <==> hasDht && exists node :: node in peers && IsEligible(node, excluded))
              && (result.Ok? ==> result.value in peers && result.value.containerRuntime && localNode != Some(result.value.id))
              && (result.Ok? <==> hasDht && exists node :: node in peers && node.containerRuntime && localNode != Some(node.id))
              && (result.Ok? && IsSpecific(region) ==>
                    (exists node :: node in peers && IsEligible(node, excluded) && node.region == region)
                    ==> IsNear(result.value.region, region))
  {
    region := requested;
    if !hasSelector {
      return Err(NoSelector), region;
    }
    if byId.Some? {
      return byId.value, region;
    }
    region := DetermineRegion(requested, preferred);
    ghost var excluded := if localNode.Some? then {localNode.value} else {};
    assert Excluded([], localNode) == excluded;
    var found, ranked := FindNodes(hasDht, peers, localNode, draws, region, [], now);
    PeersAndCandidates(peers, draws, excluded, region, now);
    if found.Err? {
      return Err(found.error), region;
    }
    assert multiset(ranked) == multiset(Candidates(peers, draws, excluded, region, now));
    assert ranked[0] in multiset(ranked);
    CandidatesAreScored(peers, draws, excluded, region, now, ranked[0]);
    NearIfPossible(peers, draws, excluded, region, now, ranked);
    result := Ok(found.value[0]);
  }

  lemma PeersAndCandidates(peers: seq<Node>, draws: seq<real>, excluded: set<string>, target: string, now: int)
    requires |draws| == |peers| && AllDraws(draws)
    ensures Candidates(peers, draws, excluded, target, now) != [] <==> exists node :: node in peers && IsEligible(node, excluded)
  {
    var cs := Candidates(peers, draws, excluded, target, now);
    if cs != [] {
      CandidatesAreScored(peers, draws, excluded, target, now, cs[0]);
    }
    if node :| node in peers && IsEligible(node, excluded) {
      EligibleIsCandidate(peers, draws, excluded, target, now, node);
    }
  }

  lemma NearIfPossible(peers: seq<Node>, draws: seq<real>, excluded: set<string>, target: string, now: int, ranked: seq<Candidate>)
    requires |draws| == |peers| && AllDraws(draws) && ranked != []
    requires Ranks(ranked, Candidates(peers, draws, excluded, target, now))
    ensures IsSpecific(target) && (exists node :: node in peers && IsEligible(node, excluded) && node.region == target) ==>
              IsNear(ranked[0].node.region, target)
  {
    if IsSpecific(target) {
      if node :| node in peers && IsEligible(node, excluded) && node.region == target {
        PickIsNear(peers, draws, excluded, target, now, ranked, node);
      }
    }
  }
}
