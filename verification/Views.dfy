/** Views allotted to interactions, and the node's turn to propose. */
module Views {
  import opened Foundation
  import opened Interactions

  const NODES: nat := 5
  const NODE_NOT_FOUND: int := -1

  /** Whether this node may propose an interaction, and from which view on. */
  datatype Allotment = Allotment(propose: bool, view: nat)

  /** An interaction that was never allotted a view. */
  const UNALLOTTED := Allotment(false, 0)

  function NextView(view: nat, pos: nat): nat {
    var d := view % NODES;
    var start := view - d;
    if pos >= d then start + pos else start + NODES + pos
  }

  /** The least view from `view` on whose residue is the position. */
  predicate IsNextTurn(r: nat, view: nat, pos: nat) {
    && r >= view && r % 5 == pos
    && forall v: nat :: view <= v < r ==> v % 5 != pos
  }

  lemma SplitView(v: nat) returns (k: nat)
    ensures v == NODES * k + v % NODES
  {
    k := v / NODES;
  }

  lemma {:induction false} ResidueOf(k: nat, r: nat)
    requires r < NODES
    ensures (NODES * k + r) % NODES == r
  {
  }

  /** A node of the five gets its next turn; a position outside them never does. */
  lemma NextViewIsLeast(view: nat, pos: nat)
    ensures IsNextTurn(NextView(view, pos), view, pos) <==> pos < 5
  {
    var r := NextView(view, pos);
    if pos < NODES {
      var k := SplitView(view);
      ResidueOf(k, pos);
      ResidueOf(k + 1, pos);
      forall v: nat | view <= v < r
        ensures v % 5 != pos
      {
        var m := SplitView(v);
      }
    }
  }

  /** Positions of this node in the leaders' context sets; an account that cannot be looked up is absent. */
  function Allocate(view: nat, leader: Identifier, positions: map<Identifier, int>, a: Allotment): Allotment
    requires forall id :: id in positions ==> positions[id] >= NODE_NOT_FOUND
  {
    if leader !in positions || positions[leader] == NODE_NOT_FOUND then a
    else Allotment(true, NextView(view, positions[leader]))
  }

  /** What the pass does with a stale allotment. */
  function Refresh(view: nat, leader: Identifier, positions: map<Identifier, int>, a: Allotment): Allotment
    requires forall id :: id in positions ==> positions[id] >= NODE_NOT_FOUND
  {
    if a.propose && a.view < view then Allocate(view, leader, positions, a) else a
  }

  predicate Ready(view: nat, leader: Identifier, positions: map<Identifier, int>, a: Allotment)
    requires forall id :: id in positions ==> positions[id] >= NODE_NOT_FOUND
  {
    a.propose && Refresh(view, leader, positions, a).view <= view
  }

  lemma NextViewNotBelow(view: nat, pos: nat)
    ensures NextView(view, pos) >= view
  {
  }

  /** Refreshing does not change the answer. */
  lemma RefreshKeepsReady(view: nat, leader: Identifier, positions: map<Identifier, int>, a: Allotment)
    requires forall id :: id in positions ==> positions[id] >= NODE_NOT_FOUND
    ensures Ready(view, leader, positions, Refresh(view, leader, positions, a)) == Ready(view, leader, positions, a)
  {
    if leader in positions && positions[leader] != NODE_NOT_FOUND {
      NextViewNotBelow(view, positions[leader]);
    }
  }

  /** An account that places this node gets this node's next turn under it; any other keeps what it had. */
  lemma AllocateIs(view: nat, leader: Identifier, positions: map<Identifier, int>, a: Allotment)
    requires Placed(positions)
    ensures var r := Allocate(view, leader, positions, a);
            if leader in positions && positions[leader] >= 0
            then r.propose && IsNextTurn(r.view, view, positions[leader]) else r == a
  {
    if leader in positions && positions[leader] >= 0 {
      NextViewIsLeast(view, positions[leader]);
    }
  }

  /** Ready is what may be proposed and is allotted this very view, or was allotted an earlier one and this view is
      this node's turn under the leader now, or nothing is known of it under that leader. */
  lemma ReadyIff(view: nat, leader: Identifier, positions: map<Identifier, int>, a: Allotment)
    requires Placed(positions)
    ensures Ready(view, leader, positions, a) <==>
            && a.propose && a.view <= view
            && (a.view < view && leader in positions && positions[leader] >= 0 ==> view % 5 == positions[leader])
  {
    AllocateIs(view, leader, positions, a);
    if leader in positions && positions[leader] >= 0 {
      NextViewIsLeast(view, positions[leader]);
    }
  }

  /******* Runs *******/

  datatype Clock = Clock(view: nat, allotted: map<Ix, Allotment>)

  /** The pool is told a new view, or allots an interaction its leader's turn from some view on. */
  datatype ClockStep = Tick(to: nat) | Allot(ix: Ix, from: nat)

  function AllottedTo(allotted: map<Ix, Allotment>, ix: Ix): Allotment {
    if ix in allotted then allotted[ix] else UNALLOTTED
  }

  function Advance(c: Clock, s: ClockStep, positions: map<Identifier, int>): Clock
    requires forall id :: id in positions ==> positions[id] >= NODE_NOT_FOUND
  {
    match s
    case Tick(v) => c.(view := v)
    case Allot(ix, from) =>
      var a := Allocate(from, ix.leader, positions, AllottedTo(c.allotted, ix));
      c.(allotted := c.allotted[ix := a])
  }

  /** A tick sets the view only, and an allotment what is allotted to its interaction only. */
  lemma AdvanceIs(c: Clock, s: ClockStep, positions: map<Identifier, int>)
    requires Placed(positions)
    ensures var d := Advance(c, s, positions);
            match s
            case Tick(v) => d.view == v && d.allotted == c.allotted
            case Allot(ix, from) =>
              && d.view == c.view && d.allotted.Keys == c.allotted.Keys + {ix}
              && (forall x :: x in c.allotted && x != ix ==> d.allotted[x] == c.allotted[x])
              && if ix.leader in positions && positions[ix.leader] >= 0
                 then d.allotted[ix].propose && IsNextTurn(d.allotted[ix].view, from, positions[ix.leader])
                 else d.allotted[ix] == (if ix in c.allotted then c.allotted[ix] else Allotment(false, 0))
  {
    if s.Allot? {
      AllocateIs(s.from, s.ix.leader, positions, AllottedTo(c.allotted, s.ix));
      hide Allocate, IsNextTurn;
    }
  }

  function AdvanceAll(c: Clock, steps: seq<ClockStep>, positions: map<Identifier, int>): Clock
    requires forall id :: id in positions ==> positions[id] >= NODE_NOT_FOUND
  {
    if steps == [] then c else Advance(AdvanceAll(c, steps[..|steps| - 1], positions), steps[|steps| - 1], positions)
  }

  /** This node is among an account's five or not in its context at all. */
  predicate Placed(positions: map<Identifier, int>) {
    forall id :: id in positions ==> NODE_NOT_FOUND <= positions[id] < NODES
  }

  /** Allotted views are turns of this node. */
  predicate OwnTurns(allotted: map<Ix, Allotment>, positions: map<Identifier, int>) {
    forall ix :: ix in allotted && allotted[ix].propose ==>
      ix.leader in positions && allotted[ix].view % NODES == positions[ix.leader]
  }

  /** Two runs on end are one. */
  lemma {:induction false} AdvanceOn(c: Clock, first: seq<ClockStep>, more: seq<ClockStep>,
                                     positions: map<Identifier, int>)
    requires forall id :: id in positions ==> positions[id] >= NODE_NOT_FOUND
    ensures AdvanceAll(AdvanceAll(c, first, positions), more, positions) == AdvanceAll(c, first + more, positions)
  {
    if more == [] {
      assert first + more == first;
    } else {
      var n := |more| - 1;
      AdvanceOn(c, first, more[..n], positions);
      assert (first + more)[..|first| + n] == first + more[..n];
    }
  }

  /** While positions stay as they are, whatever the views, only turns of this node are allotted. */
  lemma {:induction false} RunsAllotOwnTurns(start: Clock, steps: seq<ClockStep>, positions: map<Identifier, int>)
    requires Placed(positions) && OwnTurns(start.allotted, positions)
    ensures OwnTurns(AdvanceAll(start, steps, positions).allotted, positions)
  {
    if steps != [] {
      RunsAllotOwnTurns(start, steps[..|steps| - 1], positions);
      var c, s := AdvanceAll(start, steps[..|steps| - 1], positions), steps[|steps| - 1];
      if s.Allot? && s.ix.leader in positions && positions[s.ix.leader] != NODE_NOT_FOUND {
        NextViewIsLeast(s.from, positions[s.ix.leader]);
      }
    }
  }

  /** Whether the operator may propose under this leader in this view. */
  predicate OperatorEligible(leader: Identifier, positions: map<Identifier, int>, view: nat) {
    && leader in positions
    && positions[leader] >= 0
    && view % 5 == positions[leader]
  }

  /** A stale allotment's leader still has a position here, and one for this very view is this node's turn. */
  predicate TurnKept(view: nat, leader: Identifier, positions: map<Identifier, int>, a: Allotment) {
    && (a.view < view ==> leader in positions && positions[leader] != NODE_NOT_FOUND)
    && (a.view == view ==> leader in positions && positions[leader] == view % NODES)
  }

  /** Whatever positions have become since the allotment: ready means the leader's turn exactly then. */
  lemma ReadyInTurnIff(view: nat, leader: Identifier, positions: map<Identifier, int>, a: Allotment)
    requires Placed(positions)
    ensures (Ready(view, leader, positions, a) ==> OperatorEligible(leader, positions, view)) <==>
            (a.propose ==> TurnKept(view, leader, positions, a))
  {
    if leader in positions && positions[leader] != NODE_NOT_FOUND {
      NextViewIsLeast(view, positions[leader]);
    }
  }

  predicate TurnsKept(view: nat, allotted: map<Ix, Allotment>, positions: map<Identifier, int>) {
    forall ix :: ix in allotted && allotted[ix].propose ==> TurnKept(view, ix.leader, positions, allotted[ix])
  }

  /** While positions stay as they are, every allotment keeps its turn, in whatever view. */
  lemma OwnTurnsAreKept(view: nat, allotted: map<Ix, Allotment>, positions: map<Identifier, int>)
    requires Placed(positions) && OwnTurns(allotted, positions)
    ensures TurnsKept(view, allotted, positions)
  {
  }

  /** An interaction that is ready is so in its leader's turn. */
  lemma ReadyMeansOwnTurn(view: nat, ix: Ix, positions: map<Identifier, int>, allotted: map<Ix, Allotment>)
    requires Placed(positions) && TurnsKept(view, allotted, positions)
    requires ix in allotted && Ready(view, ix.leader, positions, allotted[ix])
    ensures OperatorEligible(ix.leader, positions, view)
  {
    ReadyInTurnIff(view, ix.leader, positions, allotted[ix]);
  }

  /** Without the position the stale view stands, and the interaction is offered out of turn. */
  lemma LostPositionIsOutOfTurn(view: nat, ix: Ix)
    requires view > 0
    ensures Ready(view, ix.leader, map[], Allotment(true, view - 1))
    ensures !OperatorEligible(ix.leader, map[], view)
  {
    assert view - 1 < view;
  }

  /******* The leader of a batch *******/

  datatype Kind = System | Regular | Other

  /** System leaders come first; then the least of the non-regular ones; then the least of the regular ones. */
  ghost predicate IsBatchLeader(ixs: seq<Ix>, kind: Identifier -> Kind, l: Identifier) {
    exists i :: 0 <= i < |ixs| && ixs[i].leader == l &&
      match kind(l)
      case System => forall j :: 0 <= j < i ==> kind(ixs[j].leader) != System
      case Other => forall x :: x in ixs ==> kind(x.leader) != System && (kind(x.leader) == Other ==> l <= x.leader)
      case Regular => forall x :: x in ixs ==> kind(x.leader) == Regular && l <= x.leader
  }

  method Least(ids: seq<Identifier>) returns (l: Identifier)
    requires ids != []
    ensures l in ids && forall id :: id in ids ==> l <= id
  {
    l := ids[0];
    for i := 1 to |ids|
      invariant l in ids && forall j :: 0 <= j < i ==> l <= ids[j]
    {
      if ids[i] < l {
        l := ids[i];
      }
    }
  }

  /** The leader of an interaction list; none for an empty one. */
  method ChooseLeader(ixs: seq<Ix>, kind: Identifier -> Kind) returns (r: Option<Identifier>)
    ensures r.None? <==> ixs == []
    ensures r.Some? ==> IsBatchLeader(ixs, kind, r.value)
  {
    var nonRegular, regular := [], [];
    for i := 0 to |ixs|
      invariant forall j :: 0 <= j < i ==> kind(ixs[j].leader) != System
      invariant forall j :: 0 <= j < i ==>
                  ixs[j].leader in if kind(ixs[j].leader) == Regular then regular else nonRegular
      invariant i > 0 ==> nonRegular != [] || regular != []
      invariant forall id :: id in nonRegular ==> kind(id) == Other && exists j :: 0 <= j < i && ixs[j].leader == id
      invariant forall id :: id in regular ==> kind(id) == Regular && exists j :: 0 <= j < i && ixs[j].leader == id
    {
      var leader := ixs[i].leader;
      if kind(leader) == System {
        return Some(leader);
      }
      if kind(leader) == Regular {
        regular := regular + [leader];
      } else {
        nonRegular := nonRegular + [leader];
      }
    }
    if nonRegular != [] {
      var l := Least(nonRegular);
      return Some(l);
    }
    if regular != [] {
      var l := Least(regular);
      return Some(l);
    }
    r := None;
  }
}
