/** Which locked tesseracts still stand, given the certificates the nodes present. */
module LockEvaluation {
  import opened Foundation

  datatype CertType = Proposal | Prevote | Precommit

  datatype Tesseract = Tesseract(heights: map<Identifier, nat>, ixnsHash: Hash)

  /** A certificate as a node presents it; nodes may present none. */
  datatype Qc = Qc(kind: CertType, view: nat, hash: Hash)

  /** A certificate and the tesseract its hash leads to. */
  datatype Cert = Cert(kind: CertType, view: nat, hash: Hash, ts: Tesseract)

  datatype Top = Top(height: nat, kind: CertType, view: nat)

  datatype Locked = Locked(view: nat, ts: Tesseract)

  datatype Status = Failed | NoLock | ValidLock(ts: Tesseract) | InvalidLock

  /** The certificates with their tesseracts, in order; nothing if one is missing. */
  function Resolve(views: seq<Option<Qc>>, lattice: map<Hash, Tesseract>): Option<seq<Cert>> {
    if views == [] then Some([])
    else
      var rest := Resolve(views[..|views| - 1], lattice);
      match views[|views| - 1]
      case None => rest
      case Some(qc) =>
        if rest.None? || qc.hash !in lattice then None
        else Some(rest.value + [Cert(qc.kind, qc.view, qc.hash, lattice[qc.hash])])
  }

  /** The presented certificates, none left out, in order, each with the tesseract under its hash. */
  predicate Presented(views: seq<Option<Qc>>, lattice: map<Hash, Tesseract>, certs: seq<Cert>, from: seq<nat>) {
    && |from| == |certs|
    && (forall i :: 0 <= i < |from| ==>
          && from[i] < |views| && views[from[i]].Some?
          && var qc := views[from[i]].value;
             qc.hash in lattice && certs[i] == Cert(qc.kind, qc.view, qc.hash, lattice[qc.hash]))
    && (forall i, j :: 0 <= i < j < |from| ==> from[i] < from[j])
    && (forall k: nat :: k < |views| && views[k].Some? ==> k in from)
  }

  /** Resolving fails exactly if a presented hash leads to no tesseract. */
  lemma {:induction false} ResolveIs(views: seq<Option<Qc>>, lattice: map<Hash, Tesseract>) returns (from: seq<nat>)
    ensures Resolve(views, lattice).None? <==>
            exists k :: 0 <= k < |views| && views[k].Some? && views[k].value.hash !in lattice
    ensures Resolve(views, lattice).Some? ==> Presented(views, lattice, Resolve(views, lattice).value, from)
  {
    from := [];
    if views != [] {
      var n := |views| - 1;
      var rest := views[..n];
      from := ResolveIs(rest, lattice);
      assert forall k :: 0 <= k < n ==> rest[k] == views[k];
      if views[n].Some? {
        from := from + [n];
      }
    }
  }

  /** Per account, the first certificate of the greatest height. */
  function Tops(certs: seq<Cert>): map<Identifier, Top> {
    if certs == [] then map[] else Raise(Tops(certs[..|certs| - 1]), certs[|certs| - 1])
  }

  function Raise(tops: map<Identifier, Top>, c: Cert): map<Identifier, Top> {
    map id | id in tops.Keys + c.ts.heights.Keys :: if id in c.ts.heights then NewTop(tops, c, id) else tops[id]
  }

  function NewTop(tops: map<Identifier, Top>, c: Cert, id: Identifier): Top
    requires id in c.ts.heights
  {
    if id in tops && tops[id].height >= c.ts.heights[id] then tops[id] else Top(c.ts.heights[id], c.kind, c.view)
  }

  /** The tesseracts with a prevote certificate, under the view of the last one. */
  function LockedBy(certs: seq<Cert>): map<Hash, Locked> {
    if certs == [] then map[]
    else
      var c := certs[|certs| - 1];
      var rest := LockedBy(certs[..|certs| - 1]);
      if c.kind == Prevote then rest[c.hash := Locked(c.view, c.ts)] else rest
  }

  /** An account on which the lock is out of date. */
  predicate Overruled(l: Locked, tops: map<Identifier, Top>, id: Identifier)
    requires id in l.ts.heights && id in tops
  {
    || (tops[id].kind == Precommit && l.ts.heights[id] <= tops[id].height)
    || (tops[id].kind == Prevote &&
        (l.ts.heights[id] < tops[id].height || (l.ts.heights[id] == tops[id].height && l.view < tops[id].view)))
  }

  ghost predicate Stands(l: Locked, tops: map<Identifier, Top>) {
    forall id :: id in l.ts.heights ==> id in tops && !Overruled(l, tops, id)
  }

  /** What a certificate's first place at the greatest height means. */
  ghost predicate IsTop(certs: seq<Cert>, id: Identifier, t: Top) {
    && (exists k :: 0 <= k < |certs| && id in certs[k].ts.heights
          && t == Top(certs[k].ts.heights[id], certs[k].kind, certs[k].view)
          && forall j :: 0 <= j < k && id in certs[j].ts.heights ==> certs[j].ts.heights[id] < t.height)
    && (forall k :: 0 <= k < |certs| && id in certs[k].ts.heights ==> certs[k].ts.heights[id] <= t.height)
  }

  lemma {:induction false} TopsAreFirstGreatest(certs: seq<Cert>, id: Identifier)
    ensures id in Tops(certs) <==> exists k :: 0 <= k < |certs| && id in certs[k].ts.heights
    ensures id in Tops(certs) ==> IsTop(certs, id, Tops(certs)[id])
  {
    if certs != [] {
      var n := |certs| - 1;
      var rest := certs[..n];
      TopsAreFirstGreatest(rest, id);
      assert forall k :: 0 <= k < n ==> rest[k] == certs[k];
      if id in Tops(rest) && Tops(certs)[id] == Tops(rest)[id] {
        var k :| 0 <= k < |rest| && id in rest[k].ts.heights
                 && Tops(rest)[id] == Top(rest[k].ts.heights[id], rest[k].kind, rest[k].view)
                 && forall j :: 0 <= j < k && id in rest[j].ts.heights ==>
                      rest[j].ts.heights[id] < Tops(rest)[id].height;
        assert certs[k] == rest[k];
      } else if id in certs[n].ts.heights {
        assert certs[n] == certs[|certs| - 1];
      }
    }
  }

  /******* Which locks stand *******/

  lemma {:induction false} LocksArePresented(certs: seq<Cert>, h: Hash) returns (k: nat)
    requires h in LockedBy(certs)
    ensures k < |certs| && certs[k].kind == Prevote && certs[k].hash == h
    ensures LockedBy(certs)[h] == Locked(certs[k].view, certs[k].ts)
  {
    var n := |certs| - 1;
    if certs[n].kind == Prevote && certs[n].hash == h {
      k := n;
    } else {
      k := LocksArePresented(certs[..n], h);
    }
  }

  predicate IsPrevote(c: Cert, h: Hash) {
    c.kind == Prevote && c.hash == h
  }

  /** The last prevote of the tesseract, in the order of presentation. */
  predicate LastPrevote(certs: seq<Cert>, h: Hash, k: nat) {
    && k < |certs| && IsPrevote(certs[k], h)
    && forall j :: k < j < |certs| ==> !IsPrevote(certs[j], h)
  }

  /** A tesseract is locked exactly if a prevote of it is presented, under the view of the last one. */
  lemma {:induction false} LockedIffPrevoted(certs: seq<Cert>, h: Hash)
    ensures h in LockedBy(certs) <==> exists k :: 0 <= k < |certs| && IsPrevote(certs[k], h)
    ensures h in LockedBy(certs) ==>
              exists k: nat :: LastPrevote(certs, h, k) && LockedBy(certs)[h] == Locked(certs[k].view, certs[k].ts)
  {
    if certs != [] {
      var n := |certs| - 1;
      var rest := certs[..n];
      LockedIffPrevoted(rest, h);
      assert forall k :: 0 <= k < n ==> rest[k] == certs[k];
      if IsPrevote(certs[n], h) {
        assert LastPrevote(certs, h, n);
      } else if h in LockedBy(rest) {
        var k: nat :| LastPrevote(rest, h, k) && LockedBy(rest)[h] == Locked(rest[k].view, rest[k].ts);
        assert LastPrevote(certs, h, k) && certs[k] == rest[k];
      }
    }
  }

  lemma LockIsLastPrevote(certs: seq<Cert>, h: Hash, k: nat)
    requires LastPrevote(certs, h, k)
    ensures h in LockedBy(certs) && LockedBy(certs)[h] == Locked(certs[k].view, certs[k].ts)
  {
    LockedIffPrevoted(certs, h);
    var j: nat :| LastPrevote(certs, h, j) && LockedBy(certs)[h] == Locked(certs[j].view, certs[j].ts);
    assert j == k;
  }

  /** A lock stands exactly if on each of its accounts the top is a proposal's, or a prevote's of its own
      height and no later view. */
  lemma StandsIff(certs: seq<Cert>, h: Hash)
    requires h in LockedBy(certs)
    ensures var l := LockedBy(certs)[h];
            Stands(l, Tops(certs)) <==>
            forall id :: id in l.ts.heights ==>
              && id in Tops(certs)
              && var t := Tops(certs)[id];
                 t.kind == Proposal || (t.kind == Prevote && l.ts.heights[id] == t.height && l.view >= t.view)
  {
    var k := LocksArePresented(certs, h);
    var l := LockedBy(certs)[h];
    forall id | id in l.ts.heights
      ensures id in Tops(certs) && l.ts.heights[id] <= Tops(certs)[id].height
    {
      TopsAreFirstGreatest(certs, id);
    }
  }

  /** The first of the greatest height on the account, in the order of presentation. */
  predicate FirstGreatest(certs: seq<Cert>, id: Identifier, k: nat) {
    && k < |certs| && id in certs[k].ts.heights
    && (forall j :: 0 <= j < k && id in certs[j].ts.heights ==> certs[j].ts.heights[id] < certs[k].ts.heights[id])
    && (forall j :: k <= j < |certs| && id in certs[j].ts.heights ==>
         certs[j].ts.heights[id] <= certs[k].ts.heights[id])
  }

  predicate Spares(c: Cert, l: Locked, id: Identifier)
    requires id in c.ts.heights && id in l.ts.heights
  {
    c.kind == Proposal || (c.kind == Prevote && l.ts.heights[id] == c.ts.heights[id] && l.view >= c.view)
  }

  lemma TopIsFirst(certs: seq<Cert>, id: Identifier, k: nat)
    requires FirstGreatest(certs, id, k)
    ensures id in Tops(certs) && Tops(certs)[id] == Top(certs[k].ts.heights[id], certs[k].kind, certs[k].view)
  {
    TopsAreFirstGreatest(certs, id);
    var t := Tops(certs)[id];
    var j :| 0 <= j < |certs| && id in certs[j].ts.heights
             && t == Top(certs[j].ts.heights[id], certs[j].kind, certs[j].view)
             && forall i :: 0 <= i < j && id in certs[i].ts.heights ==> certs[i].ts.heights[id] < t.height;
    assert j == k;
  }

  lemma HasFirst(certs: seq<Cert>, id: Identifier) returns (k: nat)
    requires id in Tops(certs)
    ensures FirstGreatest(certs, id, k)
  {
    TopsAreFirstGreatest(certs, id);
    var t := Tops(certs)[id];
    k :| 0 <= k < |certs| && id in certs[k].ts.heights
         && t == Top(certs[k].ts.heights[id], certs[k].kind, certs[k].view)
         && forall j :: 0 <= j < k && id in certs[j].ts.heights ==> certs[j].ts.heights[id] < t.height;
  }

  /** The order of presentation decides between certificates of one height: a lock stands exactly if on each
      of its accounts the one that comes first at the greatest height spares it. */
  lemma StandsInOrderIff(certs: seq<Cert>, h: Hash)
    requires h in LockedBy(certs)
    ensures var l := LockedBy(certs)[h];
            Stands(l, Tops(certs)) <==>
            forall id, k: nat :: id in l.ts.heights && FirstGreatest(certs, id, k) ==> Spares(certs[k], l, id)
  {
    StandsIff(certs, h);
    var p := LocksArePresented(certs, h);
    var l := LockedBy(certs)[h];
    forall id, k: nat | id in l.ts.heights && FirstGreatest(certs, id, k)
      ensures id in Tops(certs) && Tops(certs)[id] == Top(certs[k].ts.heights[id], certs[k].kind, certs[k].view)
    {
      TopIsFirst(certs, id, k);
    }
    forall id | id in l.ts.heights
      ensures id in Tops(certs) && exists k :: FirstGreatest(certs, id, k)
    {
      TopsAreFirstGreatest(certs, id);
      var k := HasFirst(certs, id);
    }
    hide FirstGreatest, Tops, LockedBy, Stands;
  }

  /** A prevote and a precommit of one height: the lock stands if the prevote comes first and falls in the
      other order. */
  lemma OrderDecides(id: Identifier, h: Hash, ts: Tesseract)
    requires ts.heights == map[id := 1]
    ensures var c, d := Cert(Prevote, 1, h, ts), Cert(Precommit, 1, h + 1, ts);
            && h in LockedBy([c, d]) && Stands(LockedBy([c, d])[h], Tops([c, d]))
            && h in LockedBy([d, c]) && !Stands(LockedBy([d, c])[h], Tops([d, c]))
  {
    var c, d := Cert(Prevote, 1, h, ts), Cert(Precommit, 1, h + 1, ts);
    var stays, falls := [c, d], [d, c];
    LockIsLastPrevote(stays, h, 0);
    LockIsLastPrevote(falls, h, 1);
    TopIsFirst(stays, id, 0);
    TopIsFirst(falls, id, 0);
    hide LockedBy, Tops;
    assert Overruled(Locked(1, ts), Tops(falls), id);
  }

  /** Only prevote and precommit certificates. */
  predicate NoProposals(certs: seq<Cert>) {
    forall c :: c in certs ==> c.kind != Proposal
  }

  /** Among prevotes and precommits, no lock that stands is below a presented certificate on any account,
      and no precommit is the first at its height there. */
  lemma StandingIsNotBelow(certs: seq<Cert>, h: Hash, id: Identifier, k: nat)
    requires NoProposals(certs) && h in LockedBy(certs) && Stands(LockedBy(certs)[h], Tops(certs))
    requires k < |certs| && id in LockedBy(certs)[h].ts.heights && id in certs[k].ts.heights
    ensures certs[k].ts.heights[id] <= LockedBy(certs)[h].ts.heights[id] && Tops(certs)[id].kind == Prevote
  {
    StandsIff(certs, h);
    TopsAreFirstGreatest(certs, id);
  }

  /** A lock that stands below a top stands below a proposal. */
  lemma BelowMeansProposalOnTop(certs: seq<Cert>, h: Hash, id: Identifier)
    requires h in LockedBy(certs) && Stands(LockedBy(certs)[h], Tops(certs)) && id in LockedBy(certs)[h].ts.heights
    ensures LockedBy(certs)[h].ts.heights[id] < Tops(certs)[id].height ==> Tops(certs)[id].kind == Proposal
  {
    StandsIff(certs, h);
  }

  lemma StandsBelowAProposal(id: Identifier, h: Hash, low: Tesseract, high: Tesseract)
    requires low.heights == map[id := 1] && high.heights == map[id := 2]
    ensures var certs := [Cert(Prevote, 1, h, low), Cert(Proposal, 1, h + 1, high)];
            h in LockedBy(certs) && Stands(LockedBy(certs)[h], Tops(certs)) && Tops(certs)[id].height == 2
  {
    var c, d := Cert(Prevote, 1, h, low), Cert(Proposal, 1, h + 1, high);
    assert [c, d][..1] == [c] && [c][..0] == [];
    assert Tops([c]) == map[id := Top(1, Prevote, 1)];
    assert Tops([c, d]) == map[id := Top(2, Proposal, 1)];
    assert LockedBy([c, d]) == LockedBy([c]);
  }

  /******* Evaluating them *******/

  ghost predicate Survives(certs: seq<Cert>, h: Hash) {
    h in LockedBy(certs) && Stands(LockedBy(certs)[h], Tops(certs))
  }

  /** The last prevote of the tesseract stands: on each of its accounts, the certificate that comes first at the
      greatest height is a proposal's, or a prevote's of the same height and no later view. */
  ghost predicate StandsAt(certs: seq<Cert>, h: Hash, k: nat) {
    && LastPrevote(certs, h, k)
    && forall id, j: nat :: id in certs[k].ts.heights && FirstGreatest(certs, id, j) ==>
         || certs[j].kind == Proposal
         || (certs[j].kind == Prevote && certs[j].ts.heights[id] == certs[k].ts.heights[id]
             && certs[j].view <= certs[k].view)
  }

  /** What is left after pruning, over the presented certificates. */
  lemma SurvivesIff(certs: seq<Cert>, h: Hash)
    ensures Survives(certs, h) <==> exists k: nat :: StandsAt(certs, h, k)
    ensures forall k: nat :: StandsAt(certs, h, k) ==> h in LockedBy(certs) && LockedBy(certs)[h].ts == certs[k].ts
  {
    forall k: nat | LastPrevote(certs, h, k)
      ensures h in LockedBy(certs) && LockedBy(certs)[h] == Locked(certs[k].view, certs[k].ts)
      ensures StandsAt(certs, h, k) <==> Survives(certs, h)
    {
      LockIsLastPrevote(certs, h, k);
      StandsInOrderIff(certs, h);
      hide LockedBy, Tops, Stands, FirstGreatest;
    }
    LockedIffPrevoted(certs, h);
    hide LockedBy, Tops, Stands, FirstGreatest;
  }

  /** Two prevotes of one tesseract: the view of the second counts, so the lock falls if it is the earlier one. */
  lemma LastViewCounts(id: Identifier, h: Hash, ts: Tesseract)
    requires ts.heights == map[id := 1]
    ensures var early, late := Cert(Prevote, 1, h, ts), Cert(Prevote, 2, h, ts);
            && IsStatus([late, early], ts.ixnsHash, NoLock)
            && IsStatus([early, late], ts.ixnsHash, ValidLock(ts))
  {
    var early, late := Cert(Prevote, 1, h, ts), Cert(Prevote, 2, h, ts);
    var falls, stays := [late, early], [early, late];
    assert FirstGreatest(falls, id, 0) && FirstGreatest(stays, id, 0);
    assert IsPrevote(falls[0], h) && IsPrevote(falls[1], h);
    forall g, k: nat
      ensures !StandsAt(falls, g, k)
    {
      if LastPrevote(falls, g, k) {
        assert k == 1 && id in falls[k].ts.heights;
      }
    }
    assert LastPrevote(stays, h, 1);
    assert StandsAt(stays, h, 1);
  }

  predicate HasLock(views: seq<Option<Qc>>) {
    exists i :: 0 <= i < |views| && views[i].Some? && views[i].value.kind == Prevote
  }

  /** The accounts of a lock in any order; one that overrules it is enough. */
  method IsOutdated(l: Locked, tops: map<Identifier, Top>) returns (r: bool)
    requires l.ts.heights.Keys <= tops.Keys
    ensures r <==> !Stands(l, tops)
  {
    var todo: set<Identifier> := l.ts.heights.Keys;
    while todo != {}
      invariant todo <= l.ts.heights.Keys
      invariant forall id :: id in l.ts.heights && id !in todo ==> !Overruled(l, tops, id)
      decreases |todo|
    {
      var id :| id in todo;
      if Overruled(l, tops, id) {
        return true;
      }
      todo := todo - {id};
    }
    r := false;
  }

  /** What raising has done once `todo` is left. */
  ghost predicate Raising(tops: map<Identifier, Top>, c: Cert, todo: set<Identifier>, r: map<Identifier, Top>) {
    && r.Keys == tops.Keys + (c.ts.heights.Keys - todo)
    && (forall id :: id in r && (id in todo || id !in c.ts.heights) ==> id in tops && r[id] == tops[id])
    && (forall id :: id in c.ts.heights && id !in todo ==> r[id] == NewTop(tops, c, id))
  }

  lemma RaiseOne(tops: map<Identifier, Top>, c: Cert, todo: set<Identifier>, r: map<Identifier, Top>, id: Identifier)
    requires Raising(tops, c, todo, r) && id in todo && todo <= c.ts.heights.Keys
    ensures Raising(tops, c, todo - {id}, r[id := NewTop(r, c, id)])
  {
    assert id in tops <==> id in r;
    assert NewTop(r, c, id) == NewTop(tops, c, id);
  }

  lemma RaisedNone(tops: map<Identifier, Top>, c: Cert)
    ensures Raising(tops, c, c.ts.heights.Keys, tops)
  {
  }

  lemma RaisedAll(tops: map<Identifier, Top>, c: Cert, r: map<Identifier, Top>)
    requires Raising(tops, c, {}, r)
    ensures r == Raise(tops, c)
  {
    hide NewTop;
  }

  method RaiseAll(tops: map<Identifier, Top>, c: Cert) returns (r: map<Identifier, Top>)
    ensures r == Raise(tops, c)
  {
    hide Raising, NewTop, Raise;
    r := tops;
    var todo: set<Identifier> := c.ts.heights.Keys;
    RaisedNone(tops, c);
    while todo != {}
      invariant todo <= c.ts.heights.Keys && Raising(tops, c, todo, r)
      decreases |todo|
    {
      var id :| id in todo;
      RaiseOne(tops, c, todo, r, id);
      r := r[id := NewTop(r, c, id)];
      todo := todo - {id};
    }
    RaisedAll(tops, c, r);
  }

  /** Looks up every presented certificate and collects locks and tops. */
  method Collect(views: seq<Option<Qc>>, lattice: map<Hash, Tesseract>)
    returns (r: Option<(map<Hash, Locked>, map<Identifier, Top>)>, ghost certs: seq<Cert>)
    ensures r.Some? <==> Resolve(views, lattice).Some?
    ensures r.Some? ==>
              Resolve(views, lattice) == Some(certs) && r.value.0 == LockedBy(certs) && r.value.1 == Tops(certs)
  {
    var locked: map<Hash, Locked>, tops: map<Identifier, Top> := map[], map[];
    certs := [];
    hide Raise;
    for i := 0 to |views|
      invariant Resolve(views[..i], lattice) == Some(certs) && locked == LockedBy(certs) && tops == Tops(certs)
    {
      assert views[..i + 1][..i] == views[..i];
      if views[i].Some? {
        var qc := views[i].value;
        if qc.hash !in lattice {
          MissingStays(views, lattice, i + 1);
          return None, certs;
        }
        var c := Cert(qc.kind, qc.view, qc.hash, lattice[qc.hash]);
        if c.kind == Prevote {
          locked := locked[c.hash := Locked(c.view, c.ts)];
        }
        tops := RaiseAll(tops, c);
        certs := certs + [c];
      }
    }
    assert views[..|views|] == views;
    r := Some((locked, tops));
  }

  lemma {:induction false} MissingStays(views: seq<Option<Qc>>, lattice: map<Hash, Tesseract>, n: nat)
    requires n <= |views| && Resolve(views[..n], lattice).None?
    ensures Resolve(views, lattice).None?
    decreases |views| - n
  {
    if n < |views| {
      assert views[..n + 1][..n] == views[..n];
      MissingStays(views, lattice, n + 1);
    } else {
      assert views[..n] == views;
    }
  }

  lemma LocksHaveTops(certs: seq<Cert>, h: Hash)
    requires h in LockedBy(certs)
    ensures LockedBy(certs)[h].ts.heights.Keys <= Tops(certs).Keys
  {
    var k := LocksArePresented(certs, h);
    forall id | id in LockedBy(certs)[h].ts.heights
      ensures id in Tops(certs)
    {
      TopsAreFirstGreatest(certs, id);
    }
  }

  /** Drops the locks that no longer stand, in any order. */
  method Prune(locked: map<Hash, Locked>, tops: map<Identifier, Top>, ghost certs: seq<Cert>)
    returns (left: map<Hash, Locked>)
    requires locked == LockedBy(certs) && tops == Tops(certs)
    ensures forall h :: h in left <==> Survives(certs, h)
    ensures forall h :: h in left ==> h in LockedBy(certs) && left[h] == LockedBy(certs)[h]
  {
    hide LockedBy, Tops, Stands;
    left := locked;
    var todo: set<Hash> := locked.Keys;
    while todo != {}
      invariant todo <= locked.Keys && left.Keys <= locked.Keys
      invariant forall h :: h in todo ==> h in left
      invariant forall h :: h in left ==> left[h] == locked[h]
      invariant forall h :: h in locked && h !in todo ==> (h in left <==> Stands(locked[h], tops))
      decreases |todo|
    {
      var h :| h in todo;
      LocksHaveTops(certs, h);
      var outdated := IsOutdated(locked[h], tops);
      if outdated {
        left := left - {h};
      }
      todo := todo - {h};
    }
  }

  /** The status of a cluster: failed if a tesseract is missing, no lock if none stands, a valid lock with a
      standing tesseract of the cluster's interactions, an invalid one if those that stand have others. */
  ghost predicate IsStatus(certs: seq<Cert>, cluster: Hash, s: Status) {
    match s
    case Failed => false
    case NoLock => forall h, k: nat :: !StandsAt(certs, h, k)
    case ValidLock(ts) => ts.ixnsHash == cluster && exists h, k: nat :: StandsAt(certs, h, k) && certs[k].ts == ts
    case InvalidLock =>
      && (exists h, k: nat :: StandsAt(certs, h, k))
      && (forall h, k: nat :: StandsAt(certs, h, k) ==> certs[k].ts.ixnsHash != cluster)
  }

  /** The tesseracts left are those that stand. */
  ghost predicate AreLeft(certs: seq<Cert>, left: map<Hash, Locked>) {
    && (forall h, k: nat :: StandsAt(certs, h, k) ==> h in left && left[h].ts == certs[k].ts)
    && (forall h :: h in left ==> exists k: nat :: StandsAt(certs, h, k))
  }

  lemma StandingAreLeft(certs: seq<Cert>, left: map<Hash, Locked>)
    requires forall h :: h in left <==> Survives(certs, h)
    requires forall h :: h in left ==> h in LockedBy(certs) && left[h] == LockedBy(certs)[h]
    ensures AreLeft(certs, left)
  {
    hide LockedBy, FirstGreatest, Survives;
    forall h
      ensures h in left <==> exists k: nat :: StandsAt(certs, h, k)
      ensures forall k: nat :: StandsAt(certs, h, k) ==> h in left && left[h].ts == certs[k].ts
    {
      SurvivesIff(certs, h);
    }
  }

  method EvaluateLockedTesseracts(views: seq<Option<Qc>>, lattice: map<Hash, Tesseract>, cluster: Hash)
    returns (s: Status)
    ensures s == Failed <==> Resolve(views, lattice).None?
    ensures s != Failed ==> IsStatus(Resolve(views, lattice).value, cluster, s)
  {
    var r, certs := Collect(views, lattice);
    if r.None? {
      return Failed;
    }
    var left := Prune(r.value.0, r.value.1, certs);
    StandingAreLeft(certs, left);
    hide *;
    s := PickLock(left, cluster, certs);
  }

  /** The standing tesseracts of the cluster's interactions come first; among them any. */
  method PickLock(left: map<Hash, Locked>, cluster: Hash, ghost certs: seq<Cert>) returns (s: Status)
    requires AreLeft(certs, left)
    ensures s != Failed && IsStatus(certs, cluster, s)
  {
    hide StandsAt;
    if left == map[] {
      assert forall h, k: nat :: StandsAt(certs, h, k) ==> h in left;
      return NoLock;
    }
    var todo: set<Hash> := left.Keys;
    while todo != {}
      invariant todo <= left.Keys
      invariant forall h :: h in left && h !in todo ==> left[h].ts.ixnsHash != cluster
      decreases |todo|
    {
      var h :| h in todo;
      if left[h].ts.ixnsHash == cluster {
        return ValidLock(left[h].ts);
      }
      todo := todo - {h};
    }
    s := InvalidLock;
    assert exists h :: h in left;
  }

  method FindLock(views: seq<Option<Qc>>) returns (r: bool)
    ensures r <==> HasLock(views)
  {
    for i := 0 to |views|
      invariant forall j :: 0 <= j < i ==> !(views[j].Some? && views[j].value.kind == Prevote)
    {
      if views[i].Some? && views[i].value.kind == Prevote {
        return true;
      }
    }
    r := false;
  }

  /** Without a prevote certificate there is no lock, and nothing is looked up. */
  method GetLockStatus(views: seq<Option<Qc>>, lattice: map<Hash, Tesseract>, cluster: Hash) returns (s: Status)
    ensures !HasLock(views) ==> s == NoLock
    ensures HasLock(views) ==> (s == Failed <==> Resolve(views, lattice).None?)
    ensures HasLock(views) && s != Failed ==> IsStatus(Resolve(views, lattice).value, cluster, s)
  {
    var found := FindLock(views);
    if !found {
      return NoLock;
    }
    s := EvaluateLockedTesseracts(views, lattice, cluster);
  }
}
