/**
  Which member keys stay registered for paid unload tokens. Cleaning walks the rings of an expired
  period with a cursor; a key that is still queued when the period is deleted, or that joins a ring
  the cursor has already passed, is never unregistered.
*/
module PaidTokenKeys {
  import opened Prelude
  import opened PaidTokens

  ghost function RingsCount(rings: seq<seq<Member>>, from: nat, m: Member): nat
    decreases |rings|
  {
    if |rings| <= from then 0
    else RingsCount(rings[..|rings| - 1], from, m) + multiset(rings[|rings| - 1])[m]
  }

  /** How often `m` waits or sits in a ring the cursor has not passed. */
  ghost function Count(c: Collection, from: nat, m: Member): nat {
    multiset(c.queue)[m] + RingsCount(c.rings, from, m)
  }

  /** The key still pends in a period that exists: waiting, or in a ring yet to be cleaned. */
  ghost predicate Pends(s: State, p: Period, m: Member) {
    p in s.created && Count(CollectionOf(s, p), NextRing(s, p), m) == 1
  }

  ghost predicate PendsSomewhere(s: State, m: Member) {
    exists p :: Pends(s, p, m)
  }

  // ---------------------------------------------------------------------------------------------
  // Stranded keys
  // ---------------------------------------------------------------------------------------------

  /** The next member to be onboarded would join a ring the cursor has passed. */
  predicate Late(s: State, p: Period, startNew: bool) {
    !startNew && CollectionOf(s, p).rings != [] && NextRing(s, p) >= |CollectionOf(s, p).rings|
  }

  /** Keys a step leaves behind: the queue of a deleted period, or a late joiner. */
  ghost function StrandedBy(cfg: Config, s: State, step: Step): set<Member> {
    if Outcome(cfg, s, step).None? then {}
    else
      match step.action
      case DeleteCollection(p, _) => Elements(CollectionOf(s, p).queue)
      case Onboard(p, startNew) => if Late(s, p, startNew) then {CollectionOf(s, p).queue[0]} else {}
      case _ => {}
  }

  ghost function Stranded(cfg: Config, s: State, steps: seq<Step>): set<Member>
    decreases |steps|
  {
    if steps == [] then {} else StrandedBy(cfg, s, steps[0]) + Stranded(cfg, Apply(cfg, s, steps[0]), steps[1..])
  }

  // ---------------------------------------------------------------------------------------------
  // Invariant
  // ---------------------------------------------------------------------------------------------

  ghost function Has(home: map<Member, Period>, p: Period, m: Member): nat {
    if m in home && home[m] == p then 1 else 0
  }

  /** The collection of `p` pends exactly the keys whose home it is, each once. */
  ghost predicate PendsHome(s: State, home: map<Member, Period>, p: Period) {
    forall m :: Count(CollectionOf(s, p), NextRing(s, p), m) == Has(home, p, m)
  }

  ghost predicate HomesExist(home: map<Member, Period>, created: set<Period>) {
    forall m :: m in home ==> home[m] in created
  }

  /** A registered key is stranded, or `home` says which existing period it pends in, and only there. */
  ghost predicate Homed(s: State, home: map<Member, Period>, lost: set<Member>) {
    && home.Keys !! lost && home.Keys + lost == s.members && HomesExist(home, s.created)
    && (forall p :: p in s.created ==> PendsHome(s, home, p))
  }

  /** Rings are never empty, and the cursor never runs past the end. */
  ghost predicate RingsPopulated(s: State) {
    forall p :: p in s.service ==> forall i :: 0 <= i < |s.service[p].rings| ==> s.service[p].rings[i] != []
  }

  ghost predicate CursorsInRange(s: State) {
    forall p :: p in s.service ==> NextRing(s, p) <= |s.service[p].rings|
  }

  ghost predicate Shape(s: State) {
    && RingsPopulated(s) && CursorsInRange(s)
    && s.created == s.service.Keys && (forall p :: p in s.nextRing ==> p in s.created)
  }

  lemma ShapeKept(cfg: Config, s: State, step: Step)
    requires Shape(s)
    ensures Shape(Apply(cfg, s, step))
  {
    match step.action {
      case Onboard(p, startNew) => OnboardShape(s, p, startNew);
      case CleanRing(p, i) => CleanRingShape(cfg, s, step.now, p, i);
      case _ =>
    }
  }

  lemma OnboardShape(s: State, p: Period, startNew: bool)
    requires Shape(s)
    ensures OnboardSpec(s, p, startNew).Some? ==> Shape(OnboardSpec(s, p, startNew).value)
  {
  }

  lemma CleanRingShape(cfg: Config, s: State, now: nat, p: Period, i: nat)
    requires Shape(s)
    ensures CleanRingSpec(cfg, s, now, p, i).Some? ==> Shape(CleanRingSpec(cfg, s, now, p, i).value)
  {
  }

  lemma PendsSame(s: State, home: map<Member, Period>, t: State, after: map<Member, Period>, p: Period)
    requires PendsHome(s, home, p) && CollectionOf(t, p) == CollectionOf(s, p) && NextRing(t, p) == NextRing(s, p)
    requires forall m :: Has(after, p, m) == Has(home, p, m)
    ensures PendsHome(t, after, p)
  {
    forall m
      ensures Count(CollectionOf(t, p), NextRing(t, p), m) == Has(after, p, m)
    {
      assert Count(CollectionOf(s, p), NextRing(s, p), m) == Has(home, p, m);
    }
  }

  // ---------------------------------------------------------------------------------------------
  // Buying a key
  // ---------------------------------------------------------------------------------------------

  lemma EnsureHomed(s: State, home: map<Member, Period>, lost: set<Member>, p: Period, createOk: bool)
    requires Homed(s, home, lost) && Shape(s) && EnsureSpec(s, p, createOk).Some?
    ensures Homed(EnsureSpec(s, p, createOk).value, home, lost) && p in EnsureSpec(s, p, createOk).value.created
  {
    var t := EnsureSpec(s, p, createOk).value;
    if p !in s.created {
      forall q | q in t.created
        ensures PendsHome(t, home, q)
      {
        if q == p {
          assert CollectionOf(t, p) == Collection([], []) && NextRing(t, p) == 0;
        } else {
          PendsSame(s, home, t, home, q);
        }
      }
    }
  }

  lemma PushCount(c: Collection, from: nat, m: Member, k: Member)
    ensures Count(c.(queue := c.queue + [m]), from, k) == Count(c, from, k) + (if k == m then 1 else 0)
  {
  }

  lemma PushHomed(s: State, home: map<Member, Period>, lost: set<Member>, p: Period, m: Member)
    requires Homed(s, home, lost) && p in s.created && m !in s.members
    ensures Homed(Push(s, p, m), home[m := p], lost)
  {
    var t, after := Push(s, p, m), home[m := p];
    forall q | q in t.created
      ensures PendsHome(t, after, q)
    {
      if q == p {
        forall k
          ensures Count(CollectionOf(t, p), NextRing(t, p), k) == Has(after, p, k)
        {
          assert Count(CollectionOf(s, p), NextRing(s, p), k) == Has(home, p, k);
          PushCount(CollectionOf(s, p), NextRing(s, p), m, k);
        }
      } else {
        PendsSame(s, home, t, after, q);
      }
    }
  }

  // ---------------------------------------------------------------------------------------------
  // Cleaning a ring
  // ---------------------------------------------------------------------------------------------

  /** Passing ring `from` takes its members out of the count. */
  lemma {:induction false} PassRing(rings: seq<seq<Member>>, from: nat, m: Member)
    requires from < |rings|
    ensures RingsCount(rings, from, m) == RingsCount(rings, from + 1, m) + multiset(rings[from])[m]
    decreases |rings|
  {
    if from < |rings| - 1 {
      PassRing(rings[..|rings| - 1], from, m);
    }
  }

  lemma CleanRingHomed(cfg: Config, s: State, home: map<Member, Period>, lost: set<Member>, now: nat, p: Period, i: nat)
    returns (after: map<Member, Period>)
    requires Homed(s, home, lost) && CleanRingSpec(cfg, s, now, p, i).Some?
    ensures Homed(CleanRingSpec(cfg, s, now, p, i).value, after, lost)
  {
    var t := CleanRingSpec(cfg, s, now, p, i).value;
    var gone := Elements(CollectionOf(s, p).rings[i]);
    after := home - gone;
    RingAtHome(s, home, p, i);
    assert gone <= home.Keys;
    forall q | q in t.created
      ensures PendsHome(t, after, q)
    {
      if q == p {
        CleanedPends(s, home, p, i, t);
      } else {
        forall m
          ensures Has(after, q, m) == Has(home, q, m)
        {
        }
        PendsSame(s, home, t, after, q);
      }
    }
  }

  /** The members of the ring at the cursor are at home in its period, and nowhere else in it. */
  lemma RingAtHome(s: State, home: map<Member, Period>, p: Period, i: nat)
    requires PendsHome(s, home, p) && i == NextRing(s, p) && i < |CollectionOf(s, p).rings|
    ensures forall m :: m in CollectionOf(s, p).rings[i] ==> m in home && home[m] == p
    ensures forall m :: m in CollectionOf(s, p).rings[i] ==> Count(CollectionOf(s, p), i + 1, m) == 0
  {
    var c := CollectionOf(s, p);
    forall m | m in c.rings[i]
      ensures m in home && home[m] == p && Count(c, i + 1, m) == 0
    {
      PassRing(c.rings, i, m);
      assert Count(c, i, m) == Has(home, p, m);
      assert multiset(c.rings[i])[m] >= 1;
    }
  }

  lemma CleanedPends(s: State, home: map<Member, Period>, p: Period, i: nat, t: State)
    requires PendsHome(s, home, p) && i == NextRing(s, p) && i < |CollectionOf(s, p).rings|
    requires CollectionOf(t, p) == CollectionOf(s, p) && NextRing(t, p) == i + 1
    ensures PendsHome(t, home - Elements(CollectionOf(s, p).rings[i]), p)
  {
    var c := CollectionOf(s, p);
    var after := home - Elements(c.rings[i]);
    RingAtHome(s, home, p, i);
    forall m
      ensures Count(c, i + 1, m) == Has(after, p, m)
    {
      assert Count(c, i, m) == Has(home, p, m);
      PassRing(c.rings, i, m);
      if m !in c.rings[i] {
        assert multiset(c.rings[i])[m] == 0;
      }
    }
  }

  // ---------------------------------------------------------------------------------------------
  // Deleting a period
  // ---------------------------------------------------------------------------------------------

  lemma NoRingsLeft(rings: seq<seq<Member>>, from: nat, m: Member)
    requires from >= |rings|
    ensures RingsCount(rings, from, m) == 0
  {
  }

  /** Once the cursor is past the last ring, what still pends is the queue. */
  lemma DeletedPendsQueue(s: State, home: map<Member, Period>, p: Period, m: Member)
    requires PendsHome(s, home, p) && p in s.service && Shape(s) && !RingPopulated(s, p, NextRing(s, p))
    ensures m in home && home[m] == p <==> m in s.service[p].queue
  {
    var c := s.service[p];
    assert NextRing(s, p) >= |c.rings|;
    NoRingsLeft(c.rings, NextRing(s, p), m);
    assert Count(CollectionOf(s, p), NextRing(s, p), m) == Has(home, p, m);
  }

  lemma DeleteHomed(cfg: Config, s: State, home: map<Member, Period>, lost: set<Member>, now: nat, p: Period, ok: bool)
    requires Homed(s, home, lost) && Shape(s) && DeleteSpec(cfg, s, now, p, ok).Some?
    ensures var queued := Elements(CollectionOf(s, p).queue);
      queued <= home.Keys && Homed(DeleteSpec(cfg, s, now, p, ok).value, home - queued, lost + queued)
  {
    var t := DeleteSpec(cfg, s, now, p, ok).value;
    var queued := Elements(CollectionOf(s, p).queue);
    forall m
      ensures m in home && home[m] == p <==> m in queued
    {
      DeletedPendsQueue(s, home, p, m);
    }
    var after := home - queued;
    forall q | q in t.created
      ensures PendsHome(t, after, q)
    {
      forall m
        ensures Has(after, q, m) == Has(home, q, m)
      {
      }
      PendsSame(s, home, t, after, q);
    }
  }

  // ---------------------------------------------------------------------------------------------
  // Onboarding
  // ---------------------------------------------------------------------------------------------

  /** The collection after the head of the queue has joined the last ring or a new one. */
  function Joined(c: Collection, startNew: bool): Collection
    requires c.queue != []
  {
    var n := |c.rings|;
    Collection(c.queue[1..],
      if startNew || n == 0 then c.rings + [[c.queue[0]]] else c.rings[n - 1 := c.rings[n - 1] + [c.queue[0]]])
  }

  lemma InTimeCount(c: Collection, from: nat, startNew: bool, m: Member)
    requires c.queue != [] && from <= |c.rings| && (startNew || c.rings == [] || from < |c.rings|)
    ensures Count(Joined(c, startNew), from, m) == Count(c, from, m)
  {
    HeadCount(c.queue, m);
    JoinedRings(c, from, startNew, m);
  }

  lemma JoinedRings(c: Collection, from: nat, startNew: bool, m: Member)
    requires c.queue != [] && from <= |c.rings| && (startNew || c.rings == [] || from < |c.rings|)
    ensures RingsCount(Joined(c, startNew).rings, from, m) == RingsCount(c.rings, from, m) + (if m == c.queue[0] then 1 else 0)
  {
    if startNew || c.rings == [] {
      NewRingCount(c.rings, c.queue[0], from, m);
    } else {
      LastRingCount(c.rings, c.queue[0], from, m);
    }
  }

  lemma HeadCount(queue: seq<Member>, m: Member)
    requires queue != []
    ensures multiset(queue)[m] == multiset(queue[1..])[m] + (if m == queue[0] then 1 else 0)
  {
    assert queue == [queue[0]] + queue[1..];
  }

  lemma NewRingCount(rings: seq<seq<Member>>, x: Member, from: nat, m: Member)
    requires from <= |rings|
    ensures RingsCount(rings + [[x]], from, m) == RingsCount(rings, from, m) + (if m == x then 1 else 0)
  {
    assert (rings + [[x]])[..|rings|] == rings;
  }

  lemma LastRingCount(rings: seq<seq<Member>>, x: Member, from: nat, m: Member)
    requires from < |rings|
    ensures RingsCount(rings[|rings| - 1 := rings[|rings| - 1] + [x]], from, m) == RingsCount(rings, from, m) + (if m == x then 1 else 0)
  {
    var n := |rings| - 1;
    var after := rings[n := rings[n] + [x]];
    assert after[..n] == rings[..n];
    assert multiset(after[n])[m] == multiset(rings[n])[m] + multiset([x])[m];
  }

  lemma LateCount(c: Collection, from: nat, m: Member)
    requires c.queue != [] && c.rings != [] && from >= |c.rings|
    ensures Count(Joined(c, false), from, m) + (if m == c.queue[0] then 1 else 0) == Count(c, from, m)
  {
    assert c.queue == [c.queue[0]] + c.queue[1..];
  }

  lemma OnboardHomed(s: State, home: map<Member, Period>, lost: set<Member>, p: Period, startNew: bool)
    requires Homed(s, home, lost) && Shape(s) && OnboardSpec(s, p, startNew).Some? && !Late(s, p, startNew)
    ensures Homed(OnboardSpec(s, p, startNew).value, home, lost)
  {
    var t := OnboardSpec(s, p, startNew).value;
    forall q | q in t.created
      ensures PendsHome(t, home, q)
    {
      if q == p {
        OnboardPends(s, home, p, startNew, t);
      } else {
        PendsSame(s, home, t, home, q);
      }
    }
  }

  lemma OnboardPends(s: State, home: map<Member, Period>, p: Period, startNew: bool, t: State)
    requires PendsHome(s, home, p) && Shape(s) && OnboardSpec(s, p, startNew) == Some(t) && !Late(s, p, startNew)
    ensures PendsHome(t, home, p)
  {
    forall m
      ensures Count(CollectionOf(t, p), NextRing(t, p), m) == Has(home, p, m)
    {
      InTimeCount(s.service[p], NextRing(s, p), startNew, m);
      assert Count(CollectionOf(s, p), NextRing(s, p), m) == Has(home, p, m);
    }
  }

  lemma LateHomed(s: State, home: map<Member, Period>, lost: set<Member>, p: Period, startNew: bool)
    requires Homed(s, home, lost) && Shape(s) && OnboardSpec(s, p, startNew).Some? && Late(s, p, startNew)
    ensures var x := CollectionOf(s, p).queue[0];
      x in home && Homed(OnboardSpec(s, p, startNew).value, home - {x}, lost + {x})
  {
    var t, x := OnboardSpec(s, p, startNew).value, CollectionOf(s, p).queue[0];
    var after := home - {x};
    assert Count(CollectionOf(s, p), NextRing(s, p), x) == Has(home, p, x);
    assert x in multiset(CollectionOf(s, p).queue);
    forall q | q in t.created
      ensures PendsHome(t, after, q)
    {
      if q == p {
        forall m
          ensures Count(CollectionOf(t, p), NextRing(t, p), m) == Has(after, p, m)
        {
          LateCount(s.service[p], NextRing(s, p), m);
          assert Count(CollectionOf(s, p), NextRing(s, p), m) == Has(home, p, m);
        }
      } else {
        forall m
          ensures Has(after, q, m) == Has(home, q, m)
        {
        }
        PendsSame(s, home, t, after, q);
      }
    }
  }

  lemma OtherHomed(s: State, home: map<Member, Period>, lost: set<Member>, t: State)
    requires Homed(s, home, lost) && t == s.(consumed := t.consumed, dusting := t.dusting)
    ensures Homed(t, home, lost)
  {
    forall p | p in t.created
      ensures PendsHome(t, home, p)
    {
      PendsSame(s, home, t, home, p);
    }
  }

  // ---------------------------------------------------------------------------------------------
  // Runs
  // ---------------------------------------------------------------------------------------------

  lemma BuyHomed(cfg: Config, s: State, home: map<Member, Period>, lost: set<Member>, step: Step) returns (after: map<Member, Period>)
    requires Homed(s, home, lost) && Shape(s) && Outcome(cfg, s, step).Some? && (step.action.AddMember? || step.action.EnsureCurrent?)
    ensures Homed(Outcome(cfg, s, step).value, after, lost)
  {
    var p := CurrentPeriod(cfg, step.now);
    EnsureHomed(s, home, lost, p, step.action.createOk);
    after := home;
    if step.action.AddMember? {
      PushHomed(EnsureSpec(s, p, step.action.createOk).value, home, lost, p, step.action.member);
      after := home[step.action.member := p];
    }
  }

  lemma JoinHomed(cfg: Config, s: State, home: map<Member, Period>, lost: set<Member>, step: Step) returns (after: map<Member, Period>)
    requires Homed(s, home, lost) && Shape(s) && Outcome(cfg, s, step).Some? && step.action.Onboard?
    ensures Homed(Outcome(cfg, s, step).value, after, lost + StrandedBy(cfg, s, step))
  {
    var Onboard(p, startNew) := step.action;
    if Late(s, p, startNew) {
      LateHomed(s, home, lost, p, startNew);
      after := home - {CollectionOf(s, p).queue[0]};
    } else {
      OnboardHomed(s, home, lost, p, startNew);
      after := home;
      assert lost + {} == lost;
    }
  }

  lemma DropHomed(cfg: Config, s: State, home: map<Member, Period>, lost: set<Member>, step: Step) returns (after: map<Member, Period>)
    requires Homed(s, home, lost) && Shape(s) && Outcome(cfg, s, step).Some? && step.action.DeleteCollection?
    ensures Homed(Outcome(cfg, s, step).value, after, lost + StrandedBy(cfg, s, step))
  {
    DeleteHomed(cfg, s, home, lost, step.now, step.action.period, step.action.deleteOk);
    after := home - Elements(CollectionOf(s, step.action.period).queue);
  }

  lemma StepHomed(cfg: Config, s: State, home: map<Member, Period>, lost: set<Member>, step: Step) returns (after: map<Member, Period>)
    requires Homed(s, home, lost) && Shape(s)
    ensures Homed(Apply(cfg, s, step), after, lost + StrandedBy(cfg, s, step))
  {
    after := home;
    assert lost + {} == lost;
    if Outcome(cfg, s, step).Some? {
      match step.action {
        case AddMember(_, _, _, _, _) => after := BuyHomed(cfg, s, home, lost, step);
        case EnsureCurrent(_) => after := BuyHomed(cfg, s, home, lost, step);
        case CleanRing(p, i) => after := CleanRingHomed(cfg, s, home, lost, step.now, p, i);
        case DeleteCollection(_, _) => after := DropHomed(cfg, s, home, lost, step);
        case Consume(_, _, _, _, _) => OtherHomed(s, home, lost, Apply(cfg, s, step));
        case CleanDust(_) => OtherHomed(s, home, lost, Apply(cfg, s, step));
        case Onboard(_, _) => after := JoinHomed(cfg, s, home, lost, step);
      }
    }
  }

  lemma {:induction false} RunHomed(cfg: Config, s: State, home: map<Member, Period>, lost: set<Member>, steps: seq<Step>)
    returns (after: map<Member, Period>)
    requires Homed(s, home, lost) && Shape(s)
    ensures Homed(Run(cfg, s, steps), after, lost + Stranded(cfg, s, steps))
    decreases |steps|
  {
    if steps == [] {
      after := home;
      assert lost + {} == lost;
    } else {
      var mid := StepHomed(cfg, s, home, lost, steps[0]);
      var t, now := Apply(cfg, s, steps[0]), lost + StrandedBy(cfg, s, steps[0]);
      ShapeKept(cfg, s, steps[0]);
      after := RunHomed(cfg, t, mid, now, steps[1..]);
      assert now + Stranded(cfg, t, steps[1..]) == lost + Stranded(cfg, s, steps);
    }
  }

  lemma HomeMeansPending(s: State, home: map<Member, Period>, lost: set<Member>, m: Member)
    requires Homed(s, home, lost)
    ensures m in home <==> PendsSomewhere(s, m)
  {
    if m in home {
      assert PendsHome(s, home, home[m]);
      assert Pends(s, home[m], m);
    }
    forall p | Pends(s, p, m)
      ensures m in home
    {
      assert PendsHome(s, home, p);
      assert Count(CollectionOf(s, p), NextRing(s, p), m) == Has(home, p, m);
    }
  }

  /**
    In every reachable state a key is registered exactly when it still pends in a period that exists,
    or the run stranded it: it was queued when its period was deleted, or joined a ring already passed.
    It is never both.
  */
  lemma RegisteredIff(cfg: Config, steps: seq<Step>, m: Member)
    ensures var s := Run(cfg, Genesis(), steps);
      && (m in s.members <==> PendsSomewhere(s, m) || m in Stranded(cfg, Genesis(), steps))
      && !(PendsSomewhere(s, m) && m in Stranded(cfg, Genesis(), steps))
  {
    var home := RunHomed(cfg, Genesis(), map[], {}, steps);
    assert {} + Stranded(cfg, Genesis(), steps) == Stranded(cfg, Genesis(), steps);
    HomeMeansPending(Run(cfg, Genesis(), steps), home, Stranded(cfg, Genesis(), steps), m);
  }

  /** What the source assumes of onboarding is exactly what it needs: no key outlives its period if and only if none was stranded. */
  lemma NoneOutlivesIff(cfg: Config, steps: seq<Step>)
    ensures var s := Run(cfg, Genesis(), steps);
      (forall m :: m in s.members ==> PendsSomewhere(s, m)) <==> Stranded(cfg, Genesis(), steps) == {}
  {
    var s, stranded := Run(cfg, Genesis(), steps), Stranded(cfg, Genesis(), steps);
    if stranded != {} {
      var m :| m in stranded;
      RegisteredIff(cfg, steps, m);
      assert m in s.members && !PendsSomewhere(s, m);
    } else {
      forall m | m in s.members
        ensures PendsSomewhere(s, m)
      {
        RegisteredIff(cfg, steps, m);
      }
    }
  }

  // ---------------------------------------------------------------------------------------------
  // A late joiner
  // ---------------------------------------------------------------------------------------------

  const LATE_CONFIG := Config(10, 5)

  /** Keys 1 and 2 are bought in period 0, and 2 is onboarded only after ring 0 was cleaned; then the period is deleted. */
  function LateRun(): seq<Step> {
    [Step(0, AddMember(1, true, true, true, true)), Step(1, Onboard(0, false)), Step(2, AddMember(2, true, true, true, true)),
     Step(20, CleanRing(0, 0)), Step(21, Onboard(0, false)), Step(22, DeleteCollection(0, true))]
  }

  lemma {:induction false} RunSteps(cfg: Config, s: State, steps: seq<Step>)
    requires steps != []
    ensures Run(cfg, s, steps) == Run(cfg, Apply(cfg, s, steps[0]), steps[1..])
  {
  }

  /** The queue is empty at the deletion, and yet key 2 stays registered with no period left. */
  lemma LateJoinerOutlives()
    ensures var s := Run(LATE_CONFIG, Genesis(), LateRun()); s.members == {2} && s.created == {}
  {
    var r := LateRun();
    var s1 := State({1}, {0}, map[], {}, {}, map[0 := Collection([1], [])]);
    var s2 := State({1}, {0}, map[], {}, {}, map[0 := Collection([], [[1]])]);
    var s3 := State({1, 2}, {0}, map[], {}, {}, map[0 := Collection([2], [[1]])]);
    var s4 := State({2}, {0}, map[0 := 1], {}, {}, map[0 := Collection([2], [[1]])]);
    var s5 := State({2}, {0}, map[0 := 1], {}, {}, map[0 := Collection([], [[1, 2]])]);
    var s6 := State({2}, {}, map[], {}, {}, map[]);
    EarlySteps(s1, s2, s3);
    LateSteps(s3, s4, s5, s6);
    RunSteps(LATE_CONFIG, Genesis(), r);
    RunSteps(LATE_CONFIG, s1, r[1..]);
    RunSteps(LATE_CONFIG, s2, r[2..]);
    RunSteps(LATE_CONFIG, s3, r[3..]);
    RunSteps(LATE_CONFIG, s4, r[4..]);
    RunSteps(LATE_CONFIG, s5, r[5..]);
    assert r[1..][1..] == r[2..] && r[2..][1..] == r[3..] && r[3..][1..] == r[4..] && r[4..][1..] == r[5..] && r[5..][1..] == [];
  }

  lemma EarlySteps(s1: State, s2: State, s3: State)
    requires s1 == State({1}, {0}, map[], {}, {}, map[0 := Collection([1], [])])
    requires s2 == State({1}, {0}, map[], {}, {}, map[0 := Collection([], [[1]])])
    requires s3 == State({1, 2}, {0}, map[], {}, {}, map[0 := Collection([2], [[1]])])
    ensures Apply(LATE_CONFIG, Genesis(), LateRun()[0]) == s1 && Apply(LATE_CONFIG, s1, LateRun()[1]) == s2
    ensures Apply(LATE_CONFIG, s2, LateRun()[2]) == s3
  {
    var r := LateRun();
    assert Apply(LATE_CONFIG, Genesis(), r[0]).service[0].queue == [1];
    assert Apply(LATE_CONFIG, s1, r[1]).service[0] == Collection([], [[1]]);
    assert Apply(LATE_CONFIG, s2, r[2]).service[0] == Collection([2], [[1]]);
  }

  lemma LateSteps(s3: State, s4: State, s5: State, s6: State)
    requires s3 == State({1, 2}, {0}, map[], {}, {}, map[0 := Collection([2], [[1]])])
    requires s4 == State({2}, {0}, map[0 := 1], {}, {}, map[0 := Collection([2], [[1]])])
    requires s5 == State({2}, {0}, map[0 := 1], {}, {}, map[0 := Collection([], [[1, 2]])])
    requires s6 == State({2}, {}, map[], {}, {}, map[])
    ensures Apply(LATE_CONFIG, s3, LateRun()[3]) == s4
    ensures Apply(LATE_CONFIG, s4, LateRun()[4]) == s5 && Apply(LATE_CONFIG, s5, LateRun()[5]) == s6
  {
    var r := LateRun();
    assert Elements([1]) == {1} && [2][1..] == [] && [1] + [2] == [1, 2];
    assert [[1]][0 := [1, 2]] == [[1, 2]];
    assert Apply(LATE_CONFIG, s3, r[3]).members == {2};
    assert Apply(LATE_CONFIG, s4, r[4]).service[0] == Collection([], [[1, 2]]);
  }
}
