/** Counting the votes of a certificate against the node sets of a committee. */
module Certificates {
  import opened Foundation
  import opened BitArrays

  const U32: nat := 0x1_0000_0000

  /** The nodes of a set, the size its quorum is taken of, and whether it takes part. */
  datatype NodeSet = NodeSet(nodes: seq<NodeId>, required: nat, excluded: bool)

  /** Context sets first, the stochastic set last. */
  type Committee = sets: seq<NodeSet> | |sets| >= 1 witness [NodeSet([], 0, false)]

  function Total(sets: seq<NodeSet>): nat {
    if sets == [] then 0 else |sets[0].nodes| + Total(sets[1..])
  }

  /** The set that holds the node with this number, counted through the sets from `v` on. */
  function SetOf(sets: seq<NodeSet>, v: nat, index: nat): (r: nat)
    requires v <= |sets|
    ensures v <= r <= |sets|
    decreases |sets| - v
  {
    if v == |sets| || index < |sets[v].nodes| then v else SetOf(sets, v + 1, index - |sets[v].nodes|)
  }

  function NodeAt(sets: seq<NodeSet>, v: nat, index: nat): NodeId
    requires v <= |sets| && SetOf(sets, v, index) < |sets|
    decreases |sets| - v
  {
    if index < |sets[v].nodes| then sets[v].nodes[index] else NodeAt(sets, v + 1, index - |sets[v].nodes|)
  }

  function Occurrences(nodes: seq<NodeId>, id: NodeId): nat {
    if nodes == [] then 0
    else Occurrences(nodes[..|nodes| - 1], id) + (if nodes[|nodes| - 1] == id then 1 else 0)
  }

  /** How often signer `index` counts towards set `j`: once for its own set, and once for each time its
      node occurs in a later context set. */
  function Weight(c: Committee, index: nat, j: nat): nat
    requires j < |c|
  {
    var v := SetOf(c, 0, index);
    if v == |c| then 0
    else if j == v then 1
    else if v < j < |c| - 1 then Occurrences(c[j].nodes, NodeAt(c, 0, index))
    else 0
  }

  /** A 64-bit number cut to a signed 32-bit one. */
  function Int32(x: nat): int {
    var y := x % U32;
    if y < U32 / 2 then y else y - U32
  }

  function SignerWeight(c: Committee, signer: nat, j: nat): nat
    requires j < |c|
  {
    if Int32(signer) < 0 then 0 else Weight(c, Int32(signer), j)
  }

  function Votes(c: Committee, signers: seq<nat>, j: nat): nat
    requires j < |c|
  {
    if signers == [] then 0
    else Votes(c, signers[..|signers| - 1], j) + SignerWeight(c, signers[|signers| - 1], j)
  }

  /******* Finding a signer *******/

  predicate CountsAs(slots: seq<nat>, c: Committee, index: nat) {
    && (forall j :: j in slots ==> j < |c|)
    && (forall j :: 0 <= j < |c| ==> multiset(slots)[j] == Weight(c, index, j))
  }

  method Matches(nodes: seq<NodeId>, id: NodeId, j: nat) returns (slots: seq<nat>)
    ensures forall k :: k in slots ==> k == j
    ensures multiset(slots)[j] == |slots| == Occurrences(nodes, id)
  {
    slots := [];
    for k := 0 to |nodes|
      invariant forall k :: k in slots ==> k == j
      invariant multiset(slots)[j] == |slots| == Occurrences(nodes[..k], id)
    {
      assert nodes[..k + 1][..k] == nodes[..k];
      if nodes[k] == id {
        slots := slots + [j];
      }
    }
    assert nodes[..|nodes|] == nodes;
  }

  lemma {:induction false} PastTheEnd(sets: seq<NodeSet>, v: nat, index: nat)
    requires v <= |sets|
    ensures SetOf(sets, v, index) == |sets| <==> index >= Total(sets[v..])
    decreases |sets| - v
  {
    if v < |sets| {
      assert sets[v..][1..] == sets[v + 1..];
      if index >= |sets[v].nodes| {
        PastTheEnd(sets, v + 1, index - |sets[v].nodes|);
      }
    }
  }

  /** The sets a signer counts towards; nothing if there is no such signer. */
  method GetKramaId(c: Committee, index: int) returns (slots: Option<seq<nat>>)
    ensures slots.None? <==> index < 0 || index >= Total(c)
    ensures slots.Some? ==> CountsAs(slots.value, c, index)
  {
    if index < 0 || index >= Total(c) {
      return None;
    }
    PastTheEnd(c, 0, index);
    assert c[0..] == c;
    var v: nat, i := 0, index;
    while i >= |c[v].nodes|
      invariant v < |c| && i >= 0 && SetOf(c, v, i) == SetOf(c, 0, index) < |c|
      invariant NodeAt(c, v, i) == NodeAt(c, 0, index)
      decreases |c| - v
    {
      i, v := i - |c[v].nodes|, v + 1;
    }
    assert SetOf(c, 0, index) == v && NodeAt(c, 0, index) == c[v].nodes[i];
    var found := LaterSets(c, v, c[v].nodes[i]);
    assert forall k :: k in multiset(found) ==> k in found;
    assert multiset([v] + found) == multiset{v} + multiset(found);
    slots := Some([v] + found);
  }

  /** The later context sets the node occurs in, as often as it does. */
  method LaterSets(c: Committee, v: nat, id: NodeId) returns (found: seq<nat>)
    requires v < |c|
    ensures forall j :: j in found ==> v < j < |c| - 1
    ensures forall j :: v < j < |c| - 1 ==> multiset(found)[j] == Occurrences(c[j].nodes, id)
  {
    found := [];
    var j := v + 1;
    while j < |c| - 1
      invariant v < j && forall k :: k in found ==> v < k < j && k < |c| - 1
      invariant forall k :: v < k < j && k < |c| - 1 ==> multiset(found)[k] == Occurrences(c[k].nodes, id)
    {
      var more := Matches(c[j].nodes, id, j);
      assert forall k :: k in multiset(more) ==> k in more;
      assert forall k :: k in multiset(found) ==> k in found;
      assert multiset(found + more) == multiset(found) + multiset(more);
      found := found + more;
      j := j + 1;
    }
  }

  /******* The verdict *******/

  /** Two thirds and one, in 32-bit arithmetic. */
  function TwoThirds(n: nat): nat {
    (2 * n) % U32 / 3 + 1
  }

  /** Of a 32-bit size it is the least number above two thirds exactly if twice the size still fits 32 bits. */
  lemma TwoThirdsIs(n: nat)
    requires n < 0x1_0000_0000
    ensures 3 * TwoThirds(n) > 2 * n >= 3 * (TwoThirds(n) - 1) <==> n < 0x8000_0000
    ensures n >= 0x8000_0000 ==> TwoThirds(n) == TwoThirds(n - 0x8000_0000)
  {
    var m := if n < 0x8000_0000 then 2 * n else 2 * n - 0x1_0000_0000;
    assert (2 * n) % U32 == m;
    assert TwoThirds(n) == m / 3 + 1;
    assert n >= 0x8000_0000 ==> (2 * (n - 0x8000_0000)) % U32 == m;
  }

  /** With two to the 31 nodes the quorum is one. */
  lemma QuorumWraps()
    ensures TwoThirds(0x8000_0000) == 1
  {
  }

  /** The cut keeps the number up to multiples of two to the 32, between minus two to the 31 and two to the 31. */
  lemma Int32Is(x: nat)
    ensures -0x8000_0000 <= Int32(x) < 0x8000_0000 && (x - Int32(x)) % 0x1_0000_0000 == 0
    ensures x < 0x8000_0000 ==> Int32(x) == x
  {
  }

  function ParticipantQuorum(s: NodeSet): nat {
    if s.required == 0 then 0 else TwoThirds(s.required)
  }

  datatype Verdict = ContextQuorumFailed | RandomQuorumFailed | CheckSignature

  /** Every context set that takes part has its quorum. */
  ghost predicate ContextsReached(c: Committee, signers: seq<nat>) {
    forall j :: 0 <= j < |c| - 1 && !c[j].excluded ==> Votes(c, signers, j) >= ParticipantQuorum(c[j])
  }

  method CountVotes(c: Committee, signers: seq<nat>) returns (votes: array<nat>)
    ensures fresh(votes) && votes.Length == |c| && forall j :: 0 <= j < |c| ==> votes[j] == Votes(c, signers, j)
  {
    votes := new nat[|c|](_ => 0);
    for k := 0 to |signers|
      invariant fresh(votes) && forall j :: 0 <= j < |c| ==> votes[j] == Votes(c, signers[..k], j)
    {
      assert signers[..k + 1][..k] == signers[..k];
      var slots := GetKramaId(c, Int32(signers[k]));
      if slots.Some? {
        AddVotes(votes, slots.value);
      } else if Int32(signers[k]) >= 0 {
        PastTheEnd(c, 0, Int32(signers[k]));
        assert c[0..] == c;
      }
    }
    assert signers[..|signers|] == signers;
  }

  method AddVotes(votes: array<nat>, slots: seq<nat>)
    requires forall j :: j in slots ==> j < votes.Length
    modifies votes
    ensures forall j :: 0 <= j < votes.Length ==> votes[j] == old(votes[j]) + multiset(slots)[j]
  {
    for k := 0 to |slots|
      invariant forall j :: 0 <= j < votes.Length ==> votes[j] == old(votes[j]) + multiset(slots[..k])[j]
    {
      assert slots[..k + 1] == slots[..k] + [slots[k]] && slots[k] in slots;
      votes[slots[k]] := votes[slots[k]] + 1;
    }
    assert slots[..|slots|] == slots;
  }

  /** Counts the set bits of the certificate and compares with the quorums; what is left is the signature. */
  method VerifyQc(c: Committee, bits: BitArray) returns (r: Verdict, signers: seq<nat>)
    requires bits.words.Length >= 1
    ensures Ascending(signers) && forall i :: i in signers <==> bits.Reads(i)
    ensures r == ContextQuorumFailed <==>
              exists j :: 0 <= j < |c| - 1 && !c[j].excluded && c[j].required != 0
                          && Votes(c, signers, j) < TwoThirds(c[j].required)
    ensures r == ContextQuorumFailed <==> !ContextsReached(c, signers)
    ensures r == RandomQuorumFailed <==>
              ContextsReached(c, signers) && Votes(c, signers, |c| - 1) < TwoThirds(c[|c| - 1].required)
  {
    signers := bits.GetTrueIndices();
    var votes := CountVotes(c, signers);
    for j := 0 to |c| - 1
      invariant forall k :: 0 <= k < j && !c[k].excluded ==> Votes(c, signers, k) >= ParticipantQuorum(c[k])
    {
      if !c[j].excluded && votes[j] < ParticipantQuorum(c[j]) {
        return ContextQuorumFailed, signers;
      }
    }
    if votes[|c| - 1] < TwoThirds(c[|c| - 1].required) {
      return RandomQuorumFailed, signers;
    }
    r := CheckSignature;
  }

  /******* Votes are distinct signers *******/

  /** No node is listed twice in one set. */
  ghost predicate NoRepeats(c: Committee) {
    forall j, a, b :: 0 <= j < |c| && 0 <= a < b < |c[j].nodes| ==> c[j].nodes[a] != c[j].nodes[b]
  }

  lemma {:induction false} AtMostOnce(nodes: seq<NodeId>, id: NodeId)
    requires forall a, b :: 0 <= a < b < |nodes| ==> nodes[a] != nodes[b]
    ensures Occurrences(nodes, id) == if id in nodes then 1 else 0
  {
    if nodes != [] {
      var n := |nodes| - 1;
      AtMostOnce(nodes[..n], id);
      assert nodes == nodes[..n] + [nodes[n]];
    }
  }

  lemma WeightIsOneOrNone(c: Committee, index: nat, j: nat)
    requires NoRepeats(c) && j < |c|
    ensures Weight(c, index, j) <= 1
  {
    var v := SetOf(c, 0, index);
    if v < j < |c| - 1 {
      AtMostOnce(c[j].nodes, NodeAt(c, 0, index));
    }
  }

  /** The signer numbers that count towards a set. */
  ghost function Voters(c: Committee, j: nat): set<nat>
    requires j < |c|
  {
    set i | 0 <= i < Total(c) && Weight(c, i, j) > 0
  }

  ghost function Counted(c: Committee, signers: seq<nat>, j: nat): set<nat>
    requires j < |c|
  {
    set i | i in signers && SignerWeight(c, i, j) > 0
  }

  /** A list of signers as the bit array gives it, of at most 2 to the 32 bits. */
  predicate IsSignerList(signers: seq<nat>) {
    Ascending(signers) && forall i :: i in signers ==> i < U32
  }

  lemma CountedAreVoters(c: Committee, signers: seq<nat>, j: nat)
    requires j < |c| && IsSignerList(signers)
    ensures Counted(c, signers, j) <= Voters(c, j)
  {
    forall i | i in Counted(c, signers, j)
      ensures i in Voters(c, j)
    {
      assert Int32(i) == i;
      PastTheEnd(c, 0, i);
      assert c[0..] == c;
    }
  }

  lemma SignerCountsOnce(c: Committee, signer: nat, j: nat)
    requires NoRepeats(c) && j < |c|
    ensures SignerWeight(c, signer, j) <= 1
  {
    hide NoRepeats, Weight;
    if Int32(signer) >= 0 {
      WeightIsOneOrNone(c, Int32(signer), j);
    }
  }

  lemma CountedSnoc(c: Committee, signers: seq<nat>, last: nat, j: nat)
    requires j < |c| && last !in signers
    ensures Counted(c, signers + [last], j) ==
            Counted(c, signers, j) + (if SignerWeight(c, last, j) > 0 then {last} else {})
    ensures last !in Counted(c, signers, j)
  {
    hide SignerWeight;
    assert forall i :: i in signers + [last] <==> i in signers || i == last;
  }

  lemma LastIsNew(signers: seq<nat>)
    requires Ascending(signers) && signers != []
    ensures var n := |signers| - 1;
            signers == signers[..n] + [signers[n]] && signers[n] !in signers[..n] && Ascending(signers[..n])
  {
  }

  /** The votes for a set are as many different signer numbers. */
  lemma {:induction false} VotesAreSigners(c: Committee, signers: seq<nat>, j: nat)
    requires NoRepeats(c) && j < |c| && Ascending(signers)
    ensures Votes(c, signers, j) == |Counted(c, signers, j)|
  {
    if signers == [] {
      assert Counted(c, signers, j) == {};
    } else {
      var n := |signers| - 1;
      assert Votes(c, signers, j) == Votes(c, signers[..n], j) + SignerWeight(c, signers[n], j);
      hide NoRepeats, SignerWeight, Counted, Votes, Ascending;
      LastIsNew(signers);
      VotesAreSigners(c, signers[..n], j);
      SignerCountsOnce(c, signers[n], j);
      CountedSnoc(c, signers[..n], signers[n], j);
    }
  }

  /** What reaches the signature check has, in every set that takes part and in the stochastic set, at least
      a quorum of different signer numbers that count towards it. */
  lemma QuorumOfSigners(c: Committee, signers: seq<nat>, j: nat)
    requires NoRepeats(c) && j < |c| && IsSignerList(signers)
    requires ContextsReached(c, signers) && Votes(c, signers, |c| - 1) >= TwoThirds(c[|c| - 1].required)
    requires j < |c| - 1 ==> !c[j].excluded
    ensures Counted(c, signers, j) <= Voters(c, j) && (forall i :: i in Counted(c, signers, j) ==> i in signers)
    ensures |Counted(c, signers, j)| >= if j < |c| - 1 then ParticipantQuorum(c[j]) else TwoThirds(c[j].required)
  {
    VotesAreSigners(c, signers, j);
    CountedAreVoters(c, signers, j);
  }

  lemma Overlap(a: set<nat>, b: set<nat>, all: set<nat>)
    requires a <= all && b <= all && |a| + |b| > |all|
    ensures exists i :: i in a && i in b
  {
    if a * b == {} {
      assert |a + b| == |a| + |b|;
      SubsetCount(a + b, all);
    } else {
      var i :| i in a * b;
    }
  }

  /** Two signer lists with a quorum of more than half of a set's voters share a voter. */
  lemma QuorumsMeet(c: Committee, a: seq<nat>, b: seq<nat>, j: nat, quorum: nat)
    requires NoRepeats(c) && j < |c| && IsSignerList(a) && IsSignerList(b)
    requires Votes(c, a, j) >= quorum && Votes(c, b, j) >= quorum && 2 * quorum > |Voters(c, j)|
    ensures Share(a, b, Voters(c, j))
  {
    VotesAreSigners(c, a, j);
    VotesAreSigners(c, b, j);
    CountedAreVoters(c, a, j);
    CountedAreVoters(c, b, j);
    Overlap(Counted(c, a, j), Counted(c, b, j), Voters(c, j));
    var i :| i in Counted(c, a, j) && i in Counted(c, b, j);
    assert i in a && i in b && i in Voters(c, j);
  }

  predicate Share(a: seq<nat>, b: seq<nat>, voters: set<nat>) {
    exists i :: i in a && i in b && i in voters
  }

  ghost predicate AlwaysMeet(c: Committee, j: nat, quorum: nat)
    requires j < |c|
  {
    forall a: seq<nat>, b: seq<nat> ::
      IsSignerList(a) && IsSignerList(b) && Votes(c, a, j) >= quorum && Votes(c, b, j) >= quorum ==>
        Share(a, b, Voters(c, j))
  }

  /** Every signer number of the committee is within the 32-bit numbers a node can be asked for by. */
  predicate Numbered(c: Committee) {
    Total(c) <= U32 / 2
  }

  /** Any two lists with a quorum share a voter exactly if the quorum is more than half of the voters. */
  lemma QuorumsMeetIff(c: Committee, j: nat, quorum: nat)
    requires NoRepeats(c) && Numbered(c) && j < |c|
    ensures AlwaysMeet(c, j, quorum) <==> 2 * quorum > |Voters(c, j)|
  {
    var all := Voters(c, j);
    if 2 * quorum > |all| {
      forall a: seq<nat>, b: seq<nat> |
        IsSignerList(a) && IsSignerList(b) && Votes(c, a, j) >= quorum && Votes(c, b, j) >= quorum
        ensures Share(a, b, all)
      {
        QuorumsMeet(c, a, b, j, quorum);
      }
    } else {
      var half := Part(all, quorum);
      var other := Part(all - half, quorum);
      var a := Listed(half, Total(c));
      var b := Listed(other, Total(c));
      VoterList(c, j, a);
      VoterList(c, j, b);
      assert half == (set i | i in a) && other == set i | i in b;
      assert !Share(a, b, all);
    }
  }

  /** Some `n` elements. */
  lemma Part(s: set<nat>, n: nat) returns (r: set<nat>)
    requires n <= |s|
    ensures r <= s && |r| == n && |s - r| == |s| - n
  {
    if n == 0 {
      r := {};
      assert s - r == s;
    } else {
      var x :| x in s;
      var t := Part(s - {x}, n - 1);
      r := t + {x};
      assert s - r == (s - {x}) - t;
    }
  }

  /** The elements in ascending order. */
  lemma Listed(s: set<nat>, below: nat) returns (r: seq<nat>)
    requires forall i :: i in s ==> i < below
    ensures Ascending(r) && forall i :: i in r <==> i in s
    decreases below
  {
    if below == 0 {
      r := [];
    } else {
      var t := Listed(s - {below - 1}, below - 1);
      r := if below - 1 in s then t + [below - 1] else t;
      assert forall i :: 0 <= i < |t| ==> t[i] in t;
    }
  }

  /** A list of voters counts in full. */
  lemma VoterList(c: Committee, j: nat, a: seq<nat>)
    requires NoRepeats(c) && Numbered(c) && j < |c| && Ascending(a) && forall i :: i in a ==> i in Voters(c, j)
    ensures IsSignerList(a) && Votes(c, a, j) == |set i | i in a|
  {
    hide Weight, Votes, NoRepeats, Total;
    VotesAreSigners(c, a, j);
    assert forall i :: i in a ==> Int32(i) == i;
    assert Counted(c, a, j) == set i | i in a;
  }

  /******* Who can vote for a set *******/

  /** No node of an earlier set sits in context set `j`; nothing is asked of the stochastic set. */
  ghost predicate Unmixed(c: Committee, j: nat)
    requires j < |c|
  {
    j < |c| - 1 ==> forall v, id :: 0 <= v < j && id in c[v].nodes ==> id !in c[j].nodes
  }

  lemma {:induction false} InSet(sets: seq<NodeSet>, v: nat, index: nat)
    requires v <= |sets| && SetOf(sets, v, index) < |sets|
    ensures NodeAt(sets, v, index) in sets[SetOf(sets, v, index)].nodes
    decreases |sets| - v
  {
    if index >= |sets[v].nodes| {
      InSet(sets, v + 1, index - |sets[v].nodes|);
    }
  }

  lemma {:induction false} SetIsRange(sets: seq<NodeSet>, v: nat, index: nat, j: nat)
    requires v <= j < |sets|
    ensures SetOf(sets, v, index) == j <==> Total(sets[v..j]) <= index < Total(sets[v..j]) + |sets[j].nodes|
    decreases j - v
  {
    if v < j {
      assert sets[v..j][1..] == sets[v + 1..j];
      if index >= |sets[v].nodes| {
        SetIsRange(sets, v + 1, index - |sets[v].nodes|, j);
      }
    }
  }

  ghost function Range(lo: nat, n: nat): (r: set<nat>)
    ensures |r| == n && forall i :: i in r <==> lo <= i < lo + n
  {
    if n == 0 then {} else Range(lo, n - 1) + {lo + n - 1}
  }

  lemma {:induction false} TotalSplits(sets: seq<NodeSet>, j: nat)
    requires j < |sets|
    ensures Total(sets[..j]) + |sets[j].nodes| <= Total(sets)
  {
    if j > 0 {
      TotalSplits(sets[1..], j - 1);
      assert sets[..j][1..] == sets[1..][..j - 1];
    }
  }

  /** Then only the set's own members vote for it, and there are as many as it has nodes. */
  lemma OwnVoters(c: Committee, j: nat)
    requires NoRepeats(c) && j < |c| && Unmixed(c, j)
    ensures |Voters(c, j)| == |c[j].nodes|
  {
    var lo, n := Total(c[..j]), |c[j].nodes|;
    forall i: nat
      ensures Weight(c, i, j) > 0 <==> lo <= i < lo + n
    {
      var v := SetOf(c, 0, i);
      SetIsRange(c, 0, i, j);
      assert c[0..j] == c[..j];
      if v < j < |c| - 1 {
        InSet(c, 0, i);
        AtMostOnce(c[j].nodes, NodeAt(c, 0, i));
      }
    }
    TotalSplits(c, j);
    assert Voters(c, j) == Range(lo, n);
  }

  ghost predicate Accepted(c: Committee, signers: seq<nat>) {
    ContextsReached(c, signers) && Votes(c, signers, |c| - 1) >= TwoThirds(c[|c| - 1].required)
  }

  function Quorum(c: Committee, j: nat): nat
    requires j < |c|
  {
    if j < |c| - 1 then ParticipantQuorum(c[j]) else TwoThirds(c[j].required)
  }

  /** Two certificates that reach the signature check share a signer number in every set that takes part and
      whose quorum is more than half of its voters. */
  lemma AcceptedMeet(c: Committee, a: seq<nat>, b: seq<nat>, j: nat)
    requires NoRepeats(c) && j < |c| && IsSignerList(a) && IsSignerList(b) && Accepted(c, a) && Accepted(c, b)
    requires (j < |c| - 1 ==> !c[j].excluded) && 2 * Quorum(c, j) > |Voters(c, j)|
    ensures Share(a, b, Voters(c, j))
  {
    QuorumsMeet(c, a, b, j, Quorum(c, j));
  }

  /** So they do in every unmixed context set that takes part, and in the stochastic set if its quorum is
      over half of it. */
  lemma CertificatesMeet(c: Committee, a: seq<nat>, b: seq<nat>, j: nat)
    requires NoRepeats(c) && j < |c| && Unmixed(c, j)
    requires IsSignerList(a) && IsSignerList(b) && Accepted(c, a) && Accepted(c, b)
    requires if j < |c| - 1 then !c[j].excluded && c[j].required == |c[j].nodes| && 0 < c[j].required < U32 / 2
             else 2 * TwoThirds(c[j].required) > |c[j].nodes|
    ensures Share(a, b, Voters(c, j))
  {
    OwnVoters(c, j);
    AcceptedMeet(c, a, b, j);
  }

  /******* Signer numbers and nodes *******/

  ghost function NodeOf(c: Committee, index: nat): NodeId {
    if SetOf(c, 0, index) < |c| then NodeAt(c, 0, index) else 0
  }

  ghost function NodesOf(c: Committee, numbers: set<nat>): set<NodeId> {
    set i | i in numbers :: NodeOf(c, i)
  }

  /** Every vote for the set is the vote of another node, whoever signs. */
  ghost predicate VotesAreNodes(c: Committee, j: nat)
    requires j < |c|
  {
    forall signers: seq<nat> :: IsSignerList(signers) ==> Votes(c, signers, j) == |NodesOf(c, Counted(c, signers, j))|
  }

  lemma {:induction false} NodeIs(sets: seq<NodeSet>, v: nat, index: nat, j: nat)
    requires v <= j < |sets| && SetOf(sets, v, index) == j
    ensures 0 <= index - Total(sets[v..j]) < |sets[j].nodes|
    ensures NodeAt(sets, v, index) == sets[j].nodes[index - Total(sets[v..j])]
    decreases j - v
  {
    SetIsRange(sets, v, index, j);
    if v < j {
      assert sets[v..j][1..] == sets[v + 1..j];
      NodeIs(sets, v + 1, index - |sets[v].nodes|, j);
    }
  }

  /** The number of the node at a place of a set. */
  lemma NumberOf(c: Committee, v: nat, k: nat) returns (i: nat)
    requires v < |c| && k < |c[v].nodes|
    ensures i == Total(c[..v]) + k < Total(c) && SetOf(c, 0, i) == v && NodeOf(c, i) == c[v].nodes[k]
  {
    i := Total(c[..v]) + k;
    assert c[0..v] == c[..v];
    SetIsRange(c, 0, i, v);
    NodeIs(c, 0, i, v);
    TotalSplits(c, v);
  }

  lemma {:induction false} OccurrencesAre(nodes: seq<NodeId>, id: NodeId)
    ensures Occurrences(nodes, id) == |set p: nat | p < |nodes| && nodes[p] == id|
  {
    var places := set p: nat | p < |nodes| && nodes[p] == id;
    if nodes == [] {
      assert places == {};
    } else {
      var n := |nodes| - 1;
      OccurrencesAre(nodes[..n], id);
      var before := set p: nat | p < n && nodes[..n][p] == id;
      assert places == before + if nodes[n] == id then {n} else {};
    }
  }

  /** Signers are numbered through the sets in order. The `k`-th node of set `v` counts once for its own set, and
      for a later context set as often as it is listed there. */
  lemma WeightIs(c: Committee, v: nat, k: nat, j: nat)
    requires v < |c| && k < |c[v].nodes| && j < |c|
    ensures Weight(c, Total(c[..v]) + k, j) ==
            if j == v then 1
            else if v < j < |c| - 1 then |set p: nat | p < |c[j].nodes| && c[j].nodes[p] == c[v].nodes[k]|
            else 0
  {
    var i := NumberOf(c, v, k);
    OccurrencesAre(c[j].nodes, c[v].nodes[k]);
    hide Occurrences, Total;
  }

  /** In an unmixed set different voters are different nodes. */
  lemma OwnNodes(c: Committee, j: nat, i: nat, k: nat)
    requires NoRepeats(c) && j < |c| && Unmixed(c, j) && Weight(c, i, j) > 0 && Weight(c, k, j) > 0 && i != k
    ensures NodeOf(c, i) != NodeOf(c, k)
  {
    OwnMember(c, j, i);
    OwnMember(c, j, k);
    NodeIs(c, 0, i, j);
    NodeIs(c, 0, k, j);
  }

  lemma OwnMember(c: Committee, j: nat, i: nat)
    requires NoRepeats(c) && j < |c| && Unmixed(c, j) && Weight(c, i, j) > 0
    ensures SetOf(c, 0, i) == j
  {
    var v := SetOf(c, 0, i);
    if v < j < |c| - 1 {
      InSet(c, 0, i);
      AtMostOnce(c[j].nodes, NodeAt(c, 0, i));
    }
  }

  lemma {:induction false} ImageSize(c: Committee, s: set<nat>)
    requires forall i, k :: i in s && k in s && i != k ==> NodeOf(c, i) != NodeOf(c, k)
    ensures |NodesOf(c, s)| == |s|
    decreases |s|
  {
    if s != {} {
      var x :| x in s;
      ImageSize(c, s - {x});
      assert NodesOf(c, s) == NodesOf(c, s - {x}) + {NodeOf(c, x)};
    }
  }

  lemma SmallNumber(c: Committee, i: nat, j: nat)
    requires j < |c| && i < U32 && SignerWeight(c, i, j) > 0
    ensures Int32(i) == i && Weight(c, i, j) > 0
  {
    hide Weight;
  }

  lemma UnmixedVotes(c: Committee, j: nat, signers: seq<nat>)
    requires NoRepeats(c) && j < |c| && Unmixed(c, j) && IsSignerList(signers)
    ensures Votes(c, signers, j) == |NodesOf(c, Counted(c, signers, j))|
  {
    hide Weight, SignerWeight, Votes, NodeOf, NoRepeats, Unmixed, NodesOf;
    var s := Counted(c, signers, j);
    VotesAreSigners(c, signers, j);
    forall i, k | i in s && k in s && i != k
      ensures NodeOf(c, i) != NodeOf(c, k)
    {
      SmallNumber(c, i, j);
      SmallNumber(c, k, j);
      OwnNodes(c, j, i, k);
    }
    ImageSize(c, s);
  }

  /** A node of an earlier set that sits in the set as well votes under two numbers. */
  lemma TwoNumbers(c: Committee, j: nat) returns (x: nat, y: nat)
    requires NoRepeats(c) && j < |c| && !Unmixed(c, j)
    ensures x < y < Total(c) && Weight(c, x, j) == 1 && Weight(c, y, j) == 1 && NodeOf(c, x) == NodeOf(c, y)
  {
    var v, id :| 0 <= v < j && id in c[v].nodes && id in c[j].nodes;
    var a :| 0 <= a < |c[v].nodes| && c[v].nodes[a] == id;
    var b :| 0 <= b < |c[j].nodes| && c[j].nodes[b] == id;
    x := NumberOf(c, v, a);
    y := NumberOf(c, j, b);
    TotalSplits(c[..j], v);
    assert c[..j][..v] == c[..v];
    AtMostOnce(c[j].nodes, id);
    hide Total, Occurrences;
  }

  lemma TwoVotes(c: Committee, j: nat, x: nat, y: nat)
    requires j < |c| && x < y < U32 / 2 && Weight(c, x, j) == 1 && Weight(c, y, j) == 1
    ensures IsSignerList([x, y]) && Votes(c, [x, y], j) == 2 && Counted(c, [x, y], j) == {x, y}
  {
    hide Weight;
    var s := [x, y];
    assert s[..1] == [x] && [x][..0] == [];
    assert Int32(x) == x && Int32(y) == y;
    assert Votes(c, [x], j) == Votes(c, [], j) + SignerWeight(c, x, j);
  }

  lemma MixedVotes(c: Committee, j: nat) returns (signers: seq<nat>)
    requires NoRepeats(c) && Numbered(c) && j < |c| && !Unmixed(c, j)
    ensures IsSignerList(signers) && Votes(c, signers, j) == 2 && |NodesOf(c, Counted(c, signers, j))| == 1
  {
    hide Unmixed, NoRepeats, Weight, NodeOf, Votes, Counted, IsSignerList, Total;
    var x, y := TwoNumbers(c, j);
    TwoVotes(c, j, x, y);
    signers := [x, y];
    assert NodesOf(c, {x, y}) == {NodeOf(c, x)};
  }

  /** The votes for a set are different nodes, whoever signs, exactly if no node of an earlier set sits in it. */
  lemma VotesAreNodesIff(c: Committee, j: nat)
    requires NoRepeats(c) && Numbered(c) && j < |c|
    ensures VotesAreNodes(c, j) <==> Unmixed(c, j)
  {
    if Unmixed(c, j) {
      forall signers: seq<nat> | IsSignerList(signers)
        ensures Votes(c, signers, j) == |NodesOf(c, Counted(c, signers, j))|
      {
        UnmixedVotes(c, j, signers);
      }
    } else {
      var signers := MixedVotes(c, j);
    }
  }

  /** Four nodes that sit in an excluded set and in the next one, which decides. */
  const MIXED: Committee :=
    [NodeSet([1, 2, 3, 4], 4, true), NodeSet([1, 2, 3, 4, 5], 5, false), NodeSet([9], 1, false)]

  lemma MixedWeights(i: nat)
    requires i < 10
    ensures Weight(MIXED, i, 1) == (if i < 9 then 1 else 0)
    ensures Weight(MIXED, i, 2) == (if i == 9 then 1 else 0)
    ensures NodeOf(MIXED, i) == (if i < 4 then i + 1 else if i < 9 then i - 3 else 9)
  {
    assert SetOf(MIXED, 0, i) == if i < 4 then 0 else if i < 9 then 1 else 2;
    assert NodeOf(MIXED, i) == if i < 4 then i + 1 else if i < 9 then i - 3 else 9;
    AtMostOnce(MIXED[1].nodes, NodeOf(MIXED, i));
  }

  /** Four numbers below nine, and the stochastic node. */
  predicate FourAndNine(a: seq<nat>) {
    |a| == 5 && Ascending(a) && a[3] < 9 == a[4]
  }

  lemma FourAndNineWeights(a: seq<nat>, i: nat)
    requires FourAndNine(a) && i in a
    ensures i < 10
    ensures SignerWeight(MIXED, i, 1) == (if i < 9 then 1 else 0)
    ensures SignerWeight(MIXED, i, 2) == (if i < 9 then 0 else 1)
  {
    hide Weight;
    MixedWeights(i);
  }

  lemma FourAndNineCounted(a: seq<nat>)
    requires FourAndNine(a)
    ensures Counted(MIXED, a, 1) == {a[0], a[1], a[2], a[3]} && Counted(MIXED, a, 2) == {9}
  {
    hide SignerWeight;
    forall i | i in a
      ensures SignerWeight(MIXED, i, 1) == (if i < 9 then 1 else 0)
      ensures SignerWeight(MIXED, i, 2) == (if i < 9 then 0 else 1)
    {
      FourAndNineWeights(a, i);
    }
    assert forall i :: i in a <==> i in {a[0], a[1], a[2], a[3], a[4]};
  }

  lemma FourAndNineAccepted(a: seq<nat>)
    requires FourAndNine(a)
    ensures IsSignerList(a) && Accepted(MIXED, a) && Counted(MIXED, a, 1) == {a[0], a[1], a[2], a[3]}
  {
    hide Votes, Counted, NoRepeats;
    NoRepeatsInMixed();
    FourAndNineCounted(a);
    VotesAreSigners(MIXED, a, 1);
    VotesAreSigners(MIXED, a, 2);
    assert ParticipantQuorum(MIXED[1]) == 4 && TwoThirds(1) == 1;
  }

  lemma NoRepeatsInMixed()
    ensures NoRepeats(MIXED)
  {
  }

  /** Two certificates reach the signature check without a common voter in the set that decides. */
  lemma DisjointCertificates()
    ensures NoRepeats(MIXED) && Accepted(MIXED, [0, 1, 2, 3, 9]) && Accepted(MIXED, [4, 5, 6, 7, 9])
    ensures !Share([0, 1, 2, 3, 9], [4, 5, 6, 7, 9], Voters(MIXED, 1))
  {
    hide Accepted, NoRepeats, Weight, Total;
    NoRepeatsInMixed();
    FourAndNineAccepted([0, 1, 2, 3, 9]);
    FourAndNineAccepted([4, 5, 6, 7, 9]);
    MixedWeights(9);
  }

  /** Two nodes each, and different ones, make the quorum of four. */
  lemma TwoNodesMakeQuorum()
    ensures Accepted(MIXED, [0, 1, 4, 5, 9]) && Accepted(MIXED, [2, 3, 6, 7, 9]) && Quorum(MIXED, 1) == 4
    ensures NodesOf(MIXED, Counted(MIXED, [0, 1, 4, 5, 9], 1)) == {1, 2}
    ensures NodesOf(MIXED, Counted(MIXED, [2, 3, 6, 7, 9], 1)) == {3, 4}
  {
    assert Quorum(MIXED, 1) == 4;
    hide Accepted, Counted, NodesOf, Quorum;
    var a, b := [0, 1, 4, 5, 9], [2, 3, 6, 7, 9];
    FourAndNineAccepted(a);
    FourAndNineAccepted(b);
    FourNodes(0, 1, 4, 5);
    FourNodes(2, 3, 6, 7);
  }

  lemma FourNodes(i: nat, j: nat, k: nat, l: nat)
    requires i < j < 4 && k == i + 4 && l == j + 4
    ensures NodesOf(MIXED, {i, j, k, l}) == {i + 1, j + 1}
  {
    hide NodeOf;
    MixedWeights(i);
    MixedWeights(j);
    MixedWeights(k);
    MixedWeights(l);
  }
}
