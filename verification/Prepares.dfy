/** Which of the competing PREPARE messages of a view are answered. A message stands in the list of every
    account it locks that this node decides; the lists share the message objects. */
module Prepares {
  import opened Foundation

  class Message {
    const sender: NodeId
    const rank: nat
    var shouldReply: bool
    var msgSent: bool

    constructor (sender: NodeId, rank: nat)
      ensures this.sender == sender && this.rank == rank && shouldReply && !msgSent
    {
      this.sender, this.rank, shouldReply, msgSent := sender, rank, true, false;
    }
  }

  type Lists = map<Identifier, seq<Message>>

  ghost function All(lists: Lists): set<Message> {
    set id, m | id in lists && m in lists[id] :: m
  }

  predicate NonEmpty(lists: Lists) {
    forall id :: id in lists ==> lists[id] != []
  }

  /******* Sorting a list by rank *******/

  predicate ByRank(list: seq<Message>) {
    forall i, j :: 0 <= i < j < |list| ==> list[i].rank <= list[j].rank
  }

  method Insert(sorted: seq<Message>, m: Message) returns (r: seq<Message>)
    requires ByRank(sorted)
    ensures ByRank(r) && multiset(r) == multiset(sorted) + multiset{m}
  {
    var k := |sorted|;
    while k > 0 && m.rank < sorted[k - 1].rank
      invariant 0 <= k <= |sorted|
      invariant forall i :: k <= i < |sorted| ==> m.rank < sorted[i].rank
    {
      k := k - 1;
    }
    r := sorted[..k] + [m] + sorted[k..];
    Inserted(sorted, m, k);
    InsertedIn(sorted, m, k);
  }

  lemma InsertedIn(sorted: seq<Message>, m: Message, k: nat)
    requires k <= |sorted|
    ensures multiset(sorted[..k] + [m] + sorted[k..]) == multiset(sorted) + multiset{m}
  {
    assert sorted == sorted[..k] + sorted[k..];
  }

  lemma Inserted(sorted: seq<Message>, m: Message, k: nat)
    requires ByRank(sorted) && k <= |sorted|
    requires k > 0 ==> sorted[k - 1].rank <= m.rank
    requires forall i :: k <= i < |sorted| ==> m.rank <= sorted[i].rank
    ensures ByRank(sorted[..k] + [m] + sorted[k..])
  {
    assert forall i :: 0 <= i < k ==> sorted[i].rank <= m.rank;
  }

  /** Sorts the list; the winner is the sender of its first message. */
  method FindWinner(list: seq<Message>) returns (sorted: seq<Message>, winner: NodeId)
    requires list != []
    ensures ByRank(sorted) && multiset(sorted) == multiset(list) && sorted != [] && winner == sorted[0].sender
  {
    sorted := [];
    for k := 0 to |list|
      invariant ByRank(sorted) && multiset(sorted) == multiset(list[..k])
    {
      assert list[..k + 1] == list[..k] + [list[k]];
      sorted := Insert(sorted, list[k]);
    }
    assert list[..|list|] == list;
    assert |multiset(sorted)| == |sorted| && |multiset(list)| == |list|;
    winner := sorted[0].sender;
  }

  /** The same messages, sorted where there is more than one. */
  predicate Arranged(lists: Lists, sorted: Lists, ids: set<Identifier>) {
    && sorted.Keys == lists.Keys
    && (forall id :: id in lists ==> multiset(sorted[id]) == multiset(lists[id]) && |sorted[id]| == |lists[id]|)
    && (forall id :: id in lists && id in ids ==> ByRank(sorted[id]))
  }

  /** The message's sender wins each of the given lists it stands in. */
  ghost predicate Wins(m: Message, sorted: Lists, ids: set<Identifier>)
    requires NonEmpty(sorted)
  {
    forall id :: id in ids && id in sorted && m in sorted[id] ==> m.sender == sorted[id][0].sender
  }

  /** Suppresses what does not come from the winner. */
  method Suppress(list: seq<Message>, winner: NodeId)
    modifies set m | m in list
    ensures forall m :: m in list ==>
              m.shouldReply == (old(m.shouldReply) && m.sender == winner) && m.msgSent == old(m.msgSent)
  {
    for k := 0 to |list|
      invariant forall m :: m in list ==> m.msgSent == old(m.msgSent)
      invariant forall m :: m in list ==>
                  m.shouldReply == (old(m.shouldReply) && (m.sender == winner || m !in list[..k]))
    {
      assert list[..k + 1] == list[..k] + [list[k]];
      if list[k].sender != winner {
        list[k].shouldReply := false;
      }
    }
    assert list[..|list|] == list;
  }

  lemma WinsMore(m: Message, sorted: Lists, id: Identifier, list: seq<Message>, done: set<Identifier>)
    requires NonEmpty(sorted) && id in sorted && id !in done && list != [] && multiset(list) == multiset(sorted[id])
    ensures NonEmpty(sorted[id := list])
    ensures Wins(m, sorted[id := list], done + {id}) <==>
            Wins(m, sorted, done) && (m in list ==> m.sender == list[0].sender)
  {
    var now := sorted[id := list];
    if Wins(m, now, done + {id}) {
      forall other | other in done && other in sorted && m in sorted[other]
        ensures m.sender == sorted[other][0].sender
      {
        assert m in now[other];
      }
    }
  }

  /** Settles one list. */
  method Settle(sorted: Lists, id: Identifier, ghost done: set<Identifier>, ghost all: set<Message>)
    returns (list: seq<Message>)
    requires NonEmpty(sorted) && id in sorted && id !in done && (forall m :: m in sorted[id] ==> m in all)
    requires forall m :: m in all ==> !m.msgSent && (m.shouldReply <==> Wins(m, sorted, done))
    modifies all
    ensures ByRank(list) && multiset(list) == multiset(sorted[id]) && |list| == |sorted[id]| &&
            NonEmpty(sorted[id := list])
    ensures forall m :: m in all ==> !m.msgSent && (m.shouldReply <==> Wins(m, sorted[id := list], done + {id}))
  {
    hide Wins, NonEmpty;
    list := sorted[id];
    Nonempty(sorted, id);
    if |list| != 1 {
      var winner;
      list, winner := FindWinner(list);
      SameMembers(list, sorted[id]);
      Suppress(list, winner);
    }
    WinsMore(list[0], sorted, id, list, done);
    forall m | m in all
      ensures m.shouldReply <==> Wins(m, sorted[id := list], done + {id})
    {
      WinsMore(m, sorted, id, list, done);
    }
  }

  lemma Nonempty(lists: Lists, id: Identifier)
    requires NonEmpty(lists) && id in lists
    ensures |lists[id]| > 0
  {
  }

  lemma SameMembers(a: seq<Message>, b: seq<Message>)
    requires multiset(a) == multiset(b)
    ensures |a| == |b| && forall m :: m in a <==> m in b
  {
    assert |multiset(a)| == |a| && |multiset(b)| == |b|;
    assert forall m :: m in a <==> m in multiset(a);
    assert forall m :: m in b <==> m in multiset(b);
  }

  lemma ArrangedFirst(lists: Lists)
    ensures Arranged(lists, lists, {})
  {
  }

  lemma ArrangedMore(lists: Lists, sorted: Lists, done: set<Identifier>, id: Identifier, list: seq<Message>)
    requires Arranged(lists, sorted, done) && id in lists
    requires ByRank(list) && multiset(list) == multiset(sorted[id]) && |list| == |sorted[id]|
    ensures Arranged(lists, sorted[id := list], done + {id})
  {
  }

  lemma Members(lists: Lists, sorted: Lists, done: set<Identifier>, id: Identifier)
    requires Arranged(lists, sorted, done) && id in lists
    ensures id in sorted && forall m :: m in sorted[id] ==> m in All(lists)
  {
    SameMembers(sorted[id], lists[id]);
  }

  /** First pass, over the lists in any order: every list with more than one message has a winner. */
  method Arbitrate(lists: Lists) returns (sorted: Lists)
    requires NonEmpty(lists) && forall m :: m in All(lists) ==> m.shouldReply && !m.msgSent
    modifies All(lists)
    ensures Arranged(lists, sorted, lists.Keys) && NonEmpty(sorted)
    ensures forall m :: m in All(lists) ==> !m.msgSent && (m.shouldReply <==> Wins(m, sorted, lists.Keys))
  {
    sorted := lists;
    var todo: set<Identifier> := lists.Keys;
    ghost var done: set<Identifier> := {};
    hide ByRank, Arranged, NonEmpty, All;
    ArrangedFirst(lists);
    while todo != {}
      invariant todo <= lists.Keys && done == lists.Keys - todo
      invariant Arranged(lists, sorted, done) && NonEmpty(sorted)
      invariant forall m :: m in All(lists) ==> !m.msgSent && (m.shouldReply <==> Wins(m, sorted, done))
      decreases |todo|
    {
      hide Wins;
      var id :| id in todo;
      Members(lists, sorted, done, id);
      var list := Settle(sorted, id, done, All(lists));
      ArrangedMore(lists, sorted, done, id, list);
      sorted := sorted[id := list];
      todo, done := todo - {id}, done + {id};
    }
    assert done == lists.Keys;
  }

  /** Left in and not answered yet, and the first of the list that is. */
  predicate Waits(m: Message)
    reads m
  {
    m.shouldReply && !m.msgSent
  }

  predicate FirstWaiting(list: seq<Message>, k: nat)
    reads list
  {
    k < |list| && Waits(list[k]) && forall j :: 0 <= j < k ==> !Waits(list[j])
  }

  /** Answers the first message of a list that is neither suppressed nor answered, if its views load; if they do
      not, it answers none. */
  method ReplyTo(list: seq<Message>, loadable: set<Message>) returns (answered: Option<Message>)
    modifies set m | m in list
    ensures forall m :: m in list ==> m.shouldReply == old(m.shouldReply)
    ensures forall m :: m in list ==> m.msgSent == (old(m.msgSent) || answered == Some(m))
    ensures answered.Some? ==> answered.value in list && answered.value.shouldReply && answered.value in loadable
    ensures list != [] && list[0].shouldReply && list[0] in loadable ==> list[0].msgSent
    ensures forall k: nat :: old(FirstWaiting(list, k)) ==>
              answered == if list[k] in loadable then Some(list[k]) else None
    ensures (forall m :: m in list ==> !old(Waits(m))) ==> answered == None
  {
    answered := None;
    for k := 0 to |list|
      invariant forall m :: m in list ==> m.shouldReply == old(m.shouldReply) && m.msgSent == old(m.msgSent)
      invariant k > 0 && list[0].shouldReply ==> list[0].msgSent
      invariant forall j :: 0 <= j < k ==> !old(Waits(list[j]))
    {
      var m := list[k];
      if !m.shouldReply || m.msgSent {
        continue;
      }
      if m in loadable {
        m.msgSent := true;
        answered := Some(m);
      }
      return;
    }
  }

  /** Second pass, over the lists in any order. */
  method Reply(lists: Lists, loadable: set<Message>)
    requires NonEmpty(lists) && forall m :: m in All(lists) ==> !m.msgSent
    modifies All(lists)
    ensures forall m :: m in All(lists) ==> m.shouldReply == old(m.shouldReply)
    ensures forall m :: m in All(lists) ==> (m.msgSent ==> m.shouldReply && m in loadable)
    ensures forall id :: id in lists && lists[id][0].shouldReply && lists[id][0] in loadable ==> lists[id][0].msgSent
  {
    var todo: set<Identifier> := lists.Keys;
    while todo != {}
      invariant todo <= lists.Keys
      invariant forall m :: m in All(lists) ==> m.shouldReply == old(m.shouldReply)
      invariant forall m :: m in All(lists) ==> (m.msgSent ==> m.shouldReply && m in loadable)
      invariant forall id :: id in lists && id !in todo && lists[id][0].shouldReply && lists[id][0] in loadable ==>
                  lists[id][0].msgSent
      decreases |todo|
    {
      var id :| id in todo;
      assert forall m :: m in lists[id] ==> m in All(lists);
      var answered := ReplyTo(lists[id], loadable);
      todo := todo - {id};
    }
  }

  /******* Which messages are answered *******/

  /** Messages of different senders have different ranks. */
  ghost predicate NoTies(lists: Lists) {
    forall m, n :: m in All(lists) && n in All(lists) && m.rank == n.rank ==> m.sender == n.sender
  }

  predicate IsLeast(m: Message, list: seq<Message>) {
    m in list && forall n :: n in list ==> m.rank <= n.rank
  }

  /** The least message of every list the message stands in has the same sender. */
  ghost predicate SenderLeads(m: Message, lists: Lists) {
    forall id, n :: id in lists && m in lists[id] && n in lists[id] && IsLeast(n, lists[id]) ==> n.sender == m.sender
  }

  lemma FirstIsLeast(lists: Lists, sorted: Lists, id: Identifier)
    requires Arranged(lists, sorted, lists.Keys) && id in lists && lists[id] != []
    ensures sorted[id] != [] && IsLeast(sorted[id][0], lists[id])
  {
    SameMembers(sorted[id], lists[id]);
    assert sorted[id][0] in sorted[id];
  }

  lemma WinnersLead(m: Message, lists: Lists, sorted: Lists)
    requires NonEmpty(lists) && NonEmpty(sorted) && Arranged(lists, sorted, lists.Keys) && NoTies(lists)
    ensures Wins(m, sorted, lists.Keys) <==> SenderLeads(m, lists)
  {
    forall id | id in lists && m in lists[id]
      ensures m in sorted[id] && IsLeast(sorted[id][0], lists[id])
      ensures forall n :: n in lists[id] && IsLeast(n, lists[id]) ==> n.sender == sorted[id][0].sender
    {
      FirstIsLeast(lists, sorted, id);
      SameMembers(sorted[id], lists[id]);
      assert sorted[id][0] in All(lists);
    }
    forall id | id in sorted && m in sorted[id]
      ensures m in lists[id]
    {
      SameMembers(sorted[id], lists[id]);
    }
    hide IsLeast, Arranged, NoTies, NonEmpty;
  }

  lemma SameAll(lists: Lists, sorted: Lists)
    requires Arranged(lists, sorted, lists.Keys)
    ensures All(sorted) == All(lists)
    ensures forall id, m :: id in lists && m in lists[id] ==> m in sorted[id]
  {
    forall id | id in lists
      ensures forall m :: m in lists[id] <==> m in sorted[id]
    {
      SameMembers(sorted[id], lists[id]);
    }
  }

  /** Strictly the least in each of its lists. */
  ghost predicate Foremost(m: Message, lists: Lists) {
    forall id, n :: id in lists && m in lists[id] && n in lists[id] && n != m ==> m.rank < n.rank
  }

  lemma ForemostIsFirst(m: Message, lists: Lists, sorted: Lists)
    requires NonEmpty(lists) && NonEmpty(sorted) && Arranged(lists, sorted, lists.Keys) && Foremost(m, lists)
    ensures Wins(m, sorted, lists.Keys)
    ensures forall id :: id in lists && m in lists[id] ==> sorted[id][0] == m
  {
    SameAll(lists, sorted);
    forall id | id in lists && m in sorted[id]
      ensures sorted[id][0] == m
    {
      FirstIsLeast(lists, sorted, id);
      SameMembers(sorted[id], lists[id]);
    }
  }

  /** Replies that share an account's list go to one sender. Without ties a message stays in exactly if its
      sender leads all its lists. A message that is foremost in its lists is answered if its views load. */
  method ProcessPrepareMsgs(lists: Lists, loadable: set<Message>)
    requires NonEmpty(lists) && forall m :: m in All(lists) ==> m.shouldReply && !m.msgSent
    modifies All(lists)
    ensures forall id, m, n :: id in lists && m in lists[id] && n in lists[id] && m.msgSent && n.msgSent ==>
              m.sender == n.sender
    ensures forall m :: m in All(lists) && m.msgSent ==> m.shouldReply && m in loadable
    ensures NoTies(lists) ==> forall m :: m in All(lists) ==> (m.shouldReply <==> SenderLeads(m, lists))
    ensures forall m :: m in All(lists) && Foremost(m, lists) ==> m.shouldReply && (m in loadable ==> m.msgSent)
  {
    var sorted := Arbitrate(lists);
    SameAll(lists, sorted);
    hide Arranged, NonEmpty, ByRank;
    Reply(sorted, loadable);
    forall m | m in All(lists) && NoTies(lists)
      ensures m.shouldReply <==> SenderLeads(m, lists)
    {
      WinnersLead(m, lists, sorted);
    }
    hide NoTies, SenderLeads;
    forall m | m in All(lists) && Foremost(m, lists)
      ensures m.shouldReply && (m in loadable ==> m.msgSent)
    {
      ForemostIsFirst(m, lists, sorted);
      var id :| id in lists && m in lists[id];
      assert sorted[id][0] == m;
    }
    forall id, m, n | id in lists && m in lists[id] && n in lists[id] && m.msgSent && n.msgSent
      ensures m.sender == n.sender
    {
      assert m in sorted[id] && n in sorted[id];
      assert m in All(lists) && n in All(lists);
    }
  }

  /** Without ties the sender of the least message of all leads wherever that message stands. */
  lemma LeastOfAllLeads(lists: Lists, m: Message)
    requires NoTies(lists) && m in All(lists) && forall n :: n in All(lists) ==> m.rank <= n.rank
    ensures SenderLeads(m, lists)
  {
    forall id, n | id in lists && m in lists[id] && n in lists[id] && IsLeast(n, lists[id])
      ensures n.sender == m.sender
    {
      assert n in All(lists) && n.rank == m.rank;
    }
  }
}
