/** The salted duplicate cache: two pages of salted digests that rotate, checked under a read lock and
    filled under a write lock, with rotations in between. */
module DupCache {
  import opened Foundation

  type Msg = seq<nat>
  type Salt = nat
  type Digest = (Msg, Salt) -> Hash

  /** What the cache stores. */
  datatype Pages = Pages(cur: set<Hash>, prev: set<Hash>, curSalt: Salt, prevSalt: Salt)

  /** The digest to insert, or nothing if either page has the message. */
  function Check(h: Digest, c: Pages, m: Msg): Option<Hash> {
    if h(m, c.curSalt) in c.cur || h(m, c.prevSalt) in c.prev then None else Some(h(m, c.curSalt))
  }

  function Swap(c: Pages, salt: Salt): Pages {
    Pages({}, c.cur, salt, c.curSalt)
  }

  datatype Put = Found | New(pages: Pages, swapped: bool)

  /** The write phase, for a digest found missing under `salt`. */
  function Write(h: Digest, c: Pages, max: int, m: Msg, salt: Salt, next: Salt): Put {
    var found := if salt != c.curSalt then Check(h, c, m).None? else h(m, salt) in c.cur;
    if found then Found
    else if |c.cur| >= max then
      var s := Swap(c, next);
      New(s.(cur := {h(m, next)}), true)
    else New(c.(cur := c.cur + {h(m, c.curSalt)}), false)
  }

  /******* The protocol *******/

  /** A call between its two phases. */
  datatype Pending = Pending(msg: Msg, salt: Salt)

  /** A call that reported its message as new: rotations seen at its check and at its insertion. */
  datatype Report = Report(msg: Msg, checked: nat, put: nat)

  datatype Cache = Cache(
    pages: Pages,
    pending: map<nat, Pending>,
    rotations: nat,
    used: set<Salt>,
    log: seq<Report>)

  datatype Step =
    | ReadPhase(caller: nat, msg: Msg)
    | WritePhase(caller: nat, salt: Salt)
    | Remix(salt: Salt)
    | Resalt(salt: Salt)

  function Init(salt: Salt): Cache {
    Cache(Pages({}, {}, salt, salt), map[], 0, {salt}, [])
  }

  /** Salts do not repeat. Re-salting in place, at the start of the service, finds the page empty. */
  predicate Enabled(s: Cache, step: Step) {
    match step
    case ReadPhase(t, _) => t !in s.pending
    case WritePhase(t, salt) => t in s.pending && salt !in s.used
    case Remix(salt) => salt !in s.used
    case Resalt(salt) => salt !in s.used && s.pages.cur == {}
  }

  function Rotated(s: Cache, salt: Salt): Cache {
    s.(pages := Swap(s.pages, salt), rotations := s.rotations + 1, used := s.used + {salt})
  }

  function Apply(h: Digest, max: int, s: Cache, step: Step): Cache
    requires Enabled(s, step)
  {
    match step
    case ReadPhase(t, m) =>
      if Check(h, s.pages, m).None? then s
      else s.(pending := s.pending[t := Pending(m, s.pages.curSalt)])
    case WritePhase(t, salt) =>
      var p := s.pending[t];
      var rest := s.(pending := s.pending - {t});
      (match Write(h, s.pages, max, p.msg, p.salt, salt)
       case Found => rest
       case New(pages, swapped) =>
         var at := if swapped then s.rotations + 1 else s.rotations;
         rest.(pages := pages, rotations := at, log := s.log + [Report(p.msg, s.rotations, at)],
               used := if swapped then s.used + {salt} else s.used))
    case Remix(salt) => Rotated(s, salt)
    case Resalt(salt) => s.(pages := s.pages.(curSalt := salt), used := s.used + {salt})
  }

  ghost predicate IsRun(h: Digest, max: int, states: seq<Cache>, steps: seq<Step>) {
    && |states| == |steps| + 1
    && (exists salt :: states[0] == Init(salt))
    && (forall i :: 0 <= i < |steps| ==>
         Enabled(states[i], steps[i]) && states[i + 1] == Apply(h, max, states[i], steps[i]))
  }

  /** A message inserted in this page or the one before is still there, under that page's salt. */
  predicate Remembered(h: Digest, s: Cache) {
    forall i :: 0 <= i < |s.log| ==>
      && s.log[i].put <= s.rotations
      && (s.log[i].put == s.rotations ==> h(s.log[i].msg, s.pages.curSalt) in s.pages.cur)
      && (s.log[i].put + 1 == s.rotations ==> h(s.log[i].msg, s.pages.prevSalt) in s.pages.prev)
  }

  /** A caller whose salt is still current has nothing to find in the previous page. */
  predicate PendingOk(h: Digest, s: Cache) {
    && s.pages.curSalt in s.used
    && forall t :: t in s.pending ==>
         && s.pending[t].salt in s.used
         && (s.pending[t].salt == s.pages.curSalt ==> h(s.pending[t].msg, s.pages.prevSalt) !in s.pages.prev)
  }

  /** Two rotations lie between two reports of one message. */
  predicate FarApart(log: seq<Report>) {
    forall i, j :: 0 <= i < j < |log| && log[i].msg == log[j].msg ==> log[i].put + 2 <= log[j].checked
  }

  predicate Inv(h: Digest, s: Cache) {
    Remembered(h, s) && PendingOk(h, s) && FarApart(s.log)
  }

  lemma MissingIsFar(h: Digest, s: Cache, m: Msg, i: nat)
    requires Remembered(h, s) && i < |s.log| && s.log[i].msg == m
    requires h(m, s.pages.curSalt) !in s.pages.cur && h(m, s.pages.prevSalt) !in s.pages.prev
    ensures s.log[i].put + 2 <= s.rotations
  {
  }

  lemma WriteKeeps(h: Digest, max: int, s: Cache, t: nat, salt: Salt)
    requires Inv(h, s) && Enabled(s, WritePhase(t, salt))
    ensures Inv(h, Apply(h, max, s, WritePhase(t, salt)))
  {
    var p := s.pending[t];
    if Write(h, s.pages, max, p.msg, p.salt, salt).New? {
      assert h(p.msg, s.pages.curSalt) !in s.pages.cur && h(p.msg, s.pages.prevSalt) !in s.pages.prev;
      forall i | 0 <= i < |s.log| && s.log[i].msg == p.msg
        ensures s.log[i].put + 2 <= s.rotations
      {
        MissingIsFar(h, s, p.msg, i);
      }
    }
  }

  lemma StepKeeps(h: Digest, max: int, s: Cache, step: Step)
    requires Inv(h, s) && Enabled(s, step)
    ensures Inv(h, Apply(h, max, s, step))
  {
    if step.WritePhase? {
      WriteKeeps(h, max, s, step.caller, step.salt);
    }
  }

  /** Over every interleaving, two rotations lie between any two calls that report one message as new. */
  lemma {:induction false} ReportsAreFarApart(h: Digest, max: int, states: seq<Cache>, steps: seq<Step>, n: nat)
    requires IsRun(h, max, states, steps) && n < |states|
    ensures Inv(h, states[n]) && FarApart(states[n].log)
  {
    if n > 0 {
      ReportsAreFarApart(h, max, states, steps, n - 1);
      StepKeeps(h, max, states[n - 1], steps[n - 1]);
    }
  }

  /******* Size *******/

  predicate Bounded(c: Pages, max: int) {
    |c.cur| <= max && |c.prev| <= max
  }

  lemma {:induction false} PagesAreBounded(h: Digest, max: int, states: seq<Cache>, steps: seq<Step>, n: nat)
    requires IsRun(h, max, states, steps) && n < |states| && max >= 1
    ensures Bounded(states[n].pages, max)
  {
    if n > 0 {
      PagesAreBounded(h, max, states, steps, n - 1);
    }
  }

  /** With no room for one digest the first message already overfills the page. */
  lemma NoRoomOverfills(h: Digest, max: int, m: Msg, salt: Salt, other: Salt)
    requires max < 1 && salt != other
    ensures var s := Apply(h, max, Apply(h, max, Init(salt), ReadPhase(0, m)), WritePhase(0, other));
            !Bounded(s.pages, max)
  {
  }

  /******* What counts as found *******/

  /** No two messages share a digest under one salt. */
  ghost predicate Injective(h: Digest) {
    forall m, m', salt :: h(m, salt) == h(m', salt) ==> m == m'
  }

  /** The digest is one of a message inserted at the given rotation. */
  ghost predicate Logged(h: Digest, log: seq<Report>, at: int, salt: Salt, d: Hash) {
    exists i :: 0 <= i < |log| && log[i].put == at && d == h(log[i].msg, salt)
  }

  /** The pages hold the messages of the last two rotations and nothing else. */
  ghost predicate Exact(h: Digest, s: Cache) {
    && (forall d :: d in s.pages.cur ==> Logged(h, s.log, s.rotations, s.pages.curSalt, d))
    && (forall d :: d in s.pages.prev ==> Logged(h, s.log, s.rotations - 1, s.pages.prevSalt, d))
  }

  lemma LoggedStays(h: Digest, log: seq<Report>, r: Report, at: int, salt: Salt, d: Hash)
    requires Logged(h, log, at, salt, d)
    ensures Logged(h, log + [r], at, salt, d)
  {
    var i :| 0 <= i < |log| && log[i].put == at && d == h(log[i].msg, salt);
    assert (log + [r])[i] == log[i];
  }

  lemma LoggedNow(h: Digest, log: seq<Report>, r: Report, salt: Salt)
    ensures Logged(h, log + [r], r.put, salt, h(r.msg, salt))
  {
    assert (log + [r])[|log|] == r;
  }

  /** The message was reported as new since the last rotation but one. */
  ghost predicate Recent(s: Cache, m: Msg) {
    exists i :: 0 <= i < |s.log| && s.log[i].msg == m && s.log[i].put + 1 >= s.rotations
  }

  lemma WriteIsExact(h: Digest, max: int, s: Cache, t: nat, salt: Salt)
    requires Exact(h, s) && Enabled(s, WritePhase(t, salt))
    ensures Exact(h, Apply(h, max, s, WritePhase(t, salt)))
  {
    var p := s.pending[t];
    var r := Apply(h, max, s, WritePhase(t, salt));
    if Write(h, s.pages, max, p.msg, p.salt, salt).New? {
      var e := Report(p.msg, s.rotations, r.rotations);
      assert r.log == s.log + [e];
      LoggedNow(h, s.log, e, r.pages.curSalt);
      hide Logged;
      forall d | d in s.pages.cur
        ensures Logged(h, r.log, s.rotations, s.pages.curSalt, d)
      {
        LoggedStays(h, s.log, e, s.rotations, s.pages.curSalt, d);
      }
      forall d | d in s.pages.prev
        ensures Logged(h, r.log, s.rotations - 1, s.pages.prevSalt, d)
      {
        LoggedStays(h, s.log, e, s.rotations - 1, s.pages.prevSalt, d);
      }
    }
  }

  lemma {:induction false} RunsAreExact(h: Digest, max: int, states: seq<Cache>, steps: seq<Step>, n: nat)
    requires IsRun(h, max, states, steps) && n < |states|
    ensures Exact(h, states[n])
  {
    if n > 0 {
      RunsAreExact(h, max, states, steps, n - 1);
      if steps[n - 1].WritePhase? {
        WriteIsExact(h, max, states[n - 1], steps[n - 1].caller, steps[n - 1].salt);
      }
    }
  }

  /** Over every interleaving, a message is found exactly if it was new since the last rotation but one. */
  lemma FoundIffRecent(h: Digest, max: int, states: seq<Cache>, steps: seq<Step>, n: nat, m: Msg)
    requires IsRun(h, max, states, steps) && n < |states| && Injective(h)
    ensures Check(h, states[n].pages, m).None? <==> Recent(states[n], m)
  {
    var s := states[n];
    ReportsAreFarApart(h, max, states, steps, n);
    RunsAreExact(h, max, states, steps, n);
    if h(m, s.pages.curSalt) in s.pages.cur {
      var i :| 0 <= i < |s.log| && s.log[i].put == s.rotations &&
               h(m, s.pages.curSalt) == h(s.log[i].msg, s.pages.curSalt);
      assert s.log[i].msg == m;
    } else if h(m, s.pages.prevSalt) in s.pages.prev {
      var i :| 0 <= i < |s.log| && s.log[i].put == s.rotations - 1 &&
               h(m, s.pages.prevSalt) == h(s.log[i].msg, s.pages.prevSalt);
      assert s.log[i].msg == m;
    }
  }

  /******* What each phase does *******/

  /** A rotation: the current page becomes the previous one, with its salt, and an empty one takes its place. */
  predicate Turned(c: Pages, d: Pages, salt: Salt) {
    d.cur == {} && d.prev == c.cur && d.prevSalt == c.curSalt && d.curSalt == salt
  }

  /** What a report leaves: the digest on the current page, or on a new one if that was full. */
  predicate Inserted(h: Digest, max: int, s: Cache, r: Cache, m: Msg, salt: Salt) {
    if |s.pages.cur| >= max then
      && r.rotations == s.rotations + 1 && r.pages.cur == {h(m, salt)} && Turned(s.pages, r.pages.(cur := {}), salt)
      && r.log == s.log + [Report(m, s.rotations, s.rotations + 1)]
    else
      && r.rotations == s.rotations && r.pages.cur == s.pages.cur + {h(m, s.pages.curSalt)}
      && r.pages.prev == s.pages.prev && r.pages.curSalt == s.pages.curSalt && r.pages.prevSalt == s.pages.prevSalt
      && r.log == s.log + [Report(m, s.rotations, s.rotations)]
  }

  /** Over every interleaving, the read phase sends a message on exactly if it is not recent. */
  lemma ReadsOnIff(h: Digest, max: int, states: seq<Cache>, steps: seq<Step>, n: nat)
    requires IsRun(h, max, states, steps) && n < |steps| && steps[n].ReadPhase? && Injective(h)
    ensures var s, r := states[n], states[n + 1];
            && r.pages == s.pages && r.rotations == s.rotations && r.log == s.log
            && r.pending == if Recent(s, steps[n].msg) then s.pending
                            else s.pending[steps[n].caller := Pending(steps[n].msg, s.pages.curSalt)]
  {
    FoundIffRecent(h, max, states, steps, n, steps[n].msg);
    hide Recent;
  }

  /** The write phase then reports it as new exactly if it is still not recent, and inserts it. */
  lemma ReportsIff(h: Digest, max: int, states: seq<Cache>, steps: seq<Step>, n: nat)
    requires IsRun(h, max, states, steps) && n < |steps| && steps[n].WritePhase? && Injective(h)
    ensures var s, r, t := states[n], states[n + 1], steps[n].caller;
            && t in s.pending && r.pending == s.pending - {t}
            && if Recent(s, s.pending[t].msg)
               then r.pages == s.pages && r.rotations == s.rotations && r.log == s.log
               else Inserted(h, max, s, r, s.pending[t].msg, steps[n].salt)
  {
    var s, t := states[n], steps[n].caller;
    assert Enabled(s, steps[n]);
    FoundIffRecent(h, max, states, steps, n, s.pending[t].msg);
    ReportsAreFarApart(h, max, states, steps, n);
    hide Recent, Remembered, FarApart;
  }

  lemma RemixTurns(h: Digest, max: int, s: Cache, salt: Salt)
    requires Enabled(s, Remix(salt))
    ensures var r := Apply(h, max, s, Remix(salt));
            && Turned(s.pages, r.pages, salt) && r.rotations == s.rotations + 1
            && r.pending == s.pending && r.log == s.log
  {
  }

  /** Re-salting in place keeps every message findable exactly if the current page is empty, unless
      digests under the new salt happen to be on it. */
  lemma ResaltIsSafeIffEmpty(h: Digest, s: Cache, salt: Salt)
    requires Inv(h, s) && Exact(h, s)
    requires forall i :: 0 <= i < |s.log| ==> h(s.log[i].msg, salt) !in s.pages.cur
    ensures Remembered(h, s.(pages := s.pages.(curSalt := salt))) <==> s.pages.cur == {}
  {
    if s.pages.cur != {} {
      var d :| d in s.pages.cur;
      var i :| 0 <= i < |s.log| && s.log[i].put == s.rotations && d == h(s.log[i].msg, s.pages.curSalt);
      assert h(s.log[i].msg, salt) !in s.pages.cur;
    }
  }

  /** With one message on the page, re-salting in place makes it new again, no rotation between. */
  lemma ResaltForgets(h: Digest, max: int, m: Msg, salt: Salt, other: Salt)
    requires max >= 1 && h(m, salt) != h(m, other)
    ensures var c := Write(h, Pages({}, {}, salt, salt), max, m, salt, other);
            c.New? && !c.swapped && Check(h, c.pages.(curSalt := other), m).Some?
  {
  }

  /******* The cache object *******/

  class SaltedCache {
    var cur: set<Hash>
    var prev: set<Hash>
    var curSalt: Salt
    var prevSalt: Salt
    const maxSize: int
    const digest: Digest

    constructor (size: int, digest: Digest)
      ensures State() == Init(0).pages && maxSize == size && this.digest == digest
    {
      cur, prev, curSalt, prevSalt := {}, {}, 0, 0;
      maxSize, this.digest := size, digest;
    }

    function State(): Pages
      reads this
    {
      Pages(cur, prev, curSalt, prevSalt)
    }

    method InnerSwap(salt: Salt)
      modifies this
      ensures State() == Swap(old(State()), salt)
    {
      prevSalt := curSalt;
      prev := cur;
      cur := {};
      curSalt := salt;
    }

    method InnerCheck(msg: Msg) returns (r: Option<Hash>)
      ensures r == Check(digest, State(), msg)
    {
      var d := digest(msg, curSalt);
      if d in cur {
        return None;
      }
      var pd := digest(msg, prevSalt);
      if pd in prev {
        return None;
      }
      r := Some(d);
    }

    /** Under the read lock: the digest to insert and the salt it was made with, if the message is missing. */
    method CheckPhase(msg: Msg) returns (r: Option<Hash>, salt: Salt)
      ensures salt == curSalt && r == Check(digest, State(), msg)
    {
      r := InnerCheck(msg);
      salt := curSalt;
    }

    /** Under the write lock, after any number of other steps. */
    method PutPhase(msg: Msg, d: Hash, salt: Salt, next: Salt) returns (found: bool)
      requires d == digest(msg, salt)
      modifies this
      ensures found <==> Write(digest, old(State()), maxSize, msg, salt, next).Found?
      ensures State() == if found then old(State()) else Write(digest, old(State()), maxSize, msg, salt, next).pages
    {
      var key := d;
      if salt != curSalt {
        var r := InnerCheck(msg);
        if r.None? {
          return true;
        }
        key := r.value;
      } else if d in cur {
        return true;
      }
      if |cur| >= maxSize {
        InnerSwap(next);
        key := digest(msg, curSalt);
      }
      cur := cur + {key};
      found := false;
    }

    /** Both phases with nothing in between: found exactly if either page has the message. */
    method CheckAndPut(msg: Msg, next: Salt) returns (found: bool)
      modifies this
      ensures found <==> Check(digest, old(State()), msg).None?
      ensures found ==> State() == old(State())
      ensures !found ==> digest(msg, curSalt) in cur
      ensures !found && |old(cur)| < maxSize ==> State() == old(State()).(cur := old(cur) + {digest(msg, curSalt)})
      ensures !found && |old(cur)| >= maxSize ==> State() == Swap(old(State()), next).(cur := {digest(msg, next)})
    {
      var d, salt := CheckPhase(msg);
      if d.None? {
        return true;
      }
      found := PutPhase(msg, d.value, salt, next);
    }
  }
}
