/**
  Paid unload tokens (`pallets/coinage/src/paid_tkn_manager.rs`): member keys bought per period,
  tokens consumed once, and expired periods forgotten ring by ring.
*/
module PaidTokens {
  import opened Prelude
  import opened Ordered

  type Period = nat
  type Member = nat

  /** A consumed token: the alias is that of the member in the period's context. */
  datatype Token = Token(period: Period, ring: nat, of: Member)

  /** What the member service holds of one period: members waiting, and members in rings. */
  datatype Collection = Collection(queue: seq<Member>, rings: seq<seq<Member>>)

  datatype Config = Config(length: nat, expiry: nat)

  datatype State = State(
    members: set<Member>,
    created: set<Period>,
    nextRing: map<Period, nat>,
    consumed: set<Token>,
    dusting: set<Period>,
    service: map<Period, Collection>)

  datatype Action =
    | AddMember(member: Member, ownsKey: bool, validKey: bool, createOk: bool, addOk: bool)
    | EnsureCurrent(createOk: bool)
    | CleanRing(period: Period, ring: nat)
    | DeleteCollection(period: Period, deleteOk: bool)
    | Consume(period: Period, ring: nat, revisionOk: bool, genuine: bool, of: Member)
    | CleanDust(batch: set<Token>)
    | Onboard(period: Period, startNew: bool)

  datatype Step = Step(now: nat, action: Action)

  const DUST_BATCH: nat := 1000

  /** `current_period`. */
  function CurrentPeriod(cfg: Config, now: nat): Period {
    if cfg.length == 0 then 0 else AsU32(now) / cfg.length
  }

  /** `period_expiration_time`; the increment is that of a `u32`. */
  function ExpirationTime(cfg: Config, p: Period): nat {
    SatAdd(SatMul(AsU32(p + 1), cfg.length, U32_MAX), cfg.expiry, U32_MAX)
  }

  predicate Expired(cfg: Config, now: nat, p: Period) {
    AsU32(now) >= ExpirationTime(cfg, p)
  }

  function NextRing(s: State, p: Period): nat {
    if p in s.nextRing then s.nextRing[p] else 0
  }

  function CollectionOf(s: State, p: Period): Collection {
    if p in s.service then s.service[p] else Collection([], [])
  }

  /** `ring_status(..).is_some_and(|s| s.total > 0)`. */
  predicate RingPopulated(s: State, p: Period, i: nat) {
    i < |CollectionOf(s, p).rings| && |CollectionOf(s, p).rings[i]| > 0
  }

  // ---------------------------------------------------------------------------------------------
  // Operations
  // ---------------------------------------------------------------------------------------------

  /** `ensure_collection_exists`. */
  function EnsureSpec(s: State, p: Period, createOk: bool): Option<State> {
    if p in s.created then Some(s)
    else if !createOk then None
    else Some(s.(created := s.created + {p}, service := s.service[p := Collection([], [])]))
  }

  function Push(s: State, p: Period, m: Member): State {
    var c := CollectionOf(s, p);
    s.(service := s.service[p := c.(queue := c.queue + [m])], members := s.members + {m})
  }

  /** `add_member`. */
  function AddSpec(cfg: Config, s: State, now: nat, m: Member, ownsKey: bool, validKey: bool, createOk: bool, addOk: bool): Option<State> {
    if !ownsKey || m in s.members || !validKey then None
    else
      var p := CurrentPeriod(cfg, now);
      match EnsureSpec(s, p, createOk)
      case None => None
      case Some(t) => if addOk then Some(Push(t, p, m)) else None
  }

  /** `ensure_can_clean_ring` and `clean_ring_unchecked`. */
  function CleanRingSpec(cfg: Config, s: State, now: nat, p: Period, i: nat): Option<State> {
    if p !in s.created || !Expired(cfg, now, p) || i != NextRing(s, p) || !RingPopulated(s, p, i) then None
    else Some(s.(members := s.members - Elements(CollectionOf(s, p).rings[i]), nextRing := s.nextRing[p := i + 1]))
  }

  predicate HasConsumed(s: State, p: Period) {
    exists t :: t in s.consumed && t.period == p
  }

  /** `ensure_can_delete_collection` and `delete_collection_unchecked`. */
  function DeleteSpec(cfg: Config, s: State, now: nat, p: Period, deleteOk: bool): Option<State> {
    if p !in s.created || !Expired(cfg, now, p) || RingPopulated(s, p, NextRing(s, p)) || !deleteOk then None
    else Some(s.(
      created := s.created - {p}, nextRing := s.nextRing - {p}, service := s.service - {p},
      dusting := if HasConsumed(s, p) then s.dusting + {p} else s.dusting))
  }

  /** `validate_token_consumption_proof` then `mark_token_consumed`: a proof yields a ring member's alias. */
  function ConsumeSpec(cfg: Config, s: State, now: nat, p: Period, i: nat, revisionOk: bool, genuine: bool, m: Member): Option<State> {
    if !revisionOk || Expired(cfg, now, p) then None
    else if !genuine || i >= |CollectionOf(s, p).rings| || m !in CollectionOf(s, p).rings[i] then None
    else if Token(p, i, m) in s.consumed then None
    else Some(s.(consumed := s.consumed + {Token(p, i, m)}))
  }

  function ConsumedOf(s: State, p: Period): set<Token> {
    set t | t in s.consumed && t.period == p
  }

  /** `clean_dust_unchecked`: a batch of the first dusted period. */
  function CleanDustSpec(s: State, batch: set<Token>): Option<State> {
    if s.dusting == {} then None
    else
      var p := Least(s.dusting);
      var dust := ConsumedOf(s, p);
      if !(batch <= dust && |batch| == Min(DUST_BATCH, |dust|)) then None
      else Some(s.(consumed := s.consumed - batch, dusting := if dust <= batch then s.dusting - {p} else s.dusting))
  }

  /** The member service moves the head of the queue into the last ring or a new one. */
  function OnboardSpec(s: State, p: Period, startNew: bool): Option<State> {
    if p !in s.service || s.service[p].queue == [] then None
    else
      var c := s.service[p];
      var n := |c.rings|;
      var rings := if startNew || n == 0 then c.rings + [[c.queue[0]]] else c.rings[n - 1 := c.rings[n - 1] + [c.queue[0]]];
      Some(s.(service := s.service[p := Collection(c.queue[1..], rings)]))
  }

  function Outcome(cfg: Config, s: State, step: Step): Option<State> {
    match step.action
    case AddMember(m, ownsKey, validKey, createOk, addOk) => AddSpec(cfg, s, step.now, m, ownsKey, validKey, createOk, addOk)
    case EnsureCurrent(createOk) => EnsureSpec(s, CurrentPeriod(cfg, step.now), createOk)
    case CleanRing(p, i) => CleanRingSpec(cfg, s, step.now, p, i)
    case DeleteCollection(p, ok) => DeleteSpec(cfg, s, step.now, p, ok)
    case Consume(p, i, revisionOk, genuine, m) => ConsumeSpec(cfg, s, step.now, p, i, revisionOk, genuine, m)
    case CleanDust(batch) => CleanDustSpec(s, batch)
    case Onboard(p, startNew) => OnboardSpec(s, p, startNew)
  }

  function Apply(cfg: Config, s: State, step: Step): State {
    var r := Outcome(cfg, s, step);
    if r.Some? then r.value else s
  }

  function Run(cfg: Config, s: State, steps: seq<Step>): State
    decreases |steps|
  {
    if steps == [] then s else Run(cfg, Apply(cfg, s, steps[0]), steps[1..])
  }

  function Genesis(): State {
    State({}, {}, map[], {}, {}, map[])
  }

  // ---------------------------------------------------------------------------------------------
  // At most once
  // ---------------------------------------------------------------------------------------------

  predicate Accepts(cfg: Config, s: State, step: Step, t: Token) {
    step.action.Consume? && Token(step.action.period, step.action.ring, step.action.of) == t && Outcome(cfg, s, step).Some?
  }

  function Uses(cfg: Config, s: State, steps: seq<Step>, t: Token): nat
    decreases |steps|
  {
    if steps == [] then 0
    else (if Accepts(cfg, s, steps[0], t) then 1 else 0) + Uses(cfg, Apply(cfg, s, steps[0]), steps[1..], t)
  }

  /** Time does not run backwards and fits the 32-bit seconds the code reads. */
  predicate Chronological(steps: seq<Step>, since: nat)
    decreases |steps|
  {
    steps == [] || (since <= steps[0].now <= U32_MAX && Chronological(steps[1..], steps[0].now))
  }

  /** Consumed records are queued for deletion only once their period has expired. */
  ghost predicate DustExpired(cfg: Config, s: State, now: nat) {
    forall p :: p in s.dusting ==> Expired(cfg, now, p)
  }

  lemma ExpiredStays(cfg: Config, now: nat, later: nat, p: Period)
    requires Expired(cfg, now, p) && now <= later <= U32_MAX
    ensures Expired(cfg, later, p)
  {
  }

  lemma StepKeepsDustExpired(cfg: Config, s: State, since: nat, step: Step)
    requires DustExpired(cfg, s, since) && since <= step.now <= U32_MAX
    ensures DustExpired(cfg, Apply(cfg, s, step), step.now)
  {
    forall p | p in Apply(cfg, s, step).dusting
      ensures Expired(cfg, step.now, p)
    {
      if p in s.dusting {
        ExpiredStays(cfg, since, step.now, p);
      }
    }
  }

  /** A consumed record is erased only after its period has expired for validation. */
  lemma ErasedOnlyAfterExpiry(cfg: Config, s: State, since: nat, step: Step, t: Token)
    requires DustExpired(cfg, s, since) && since <= step.now <= U32_MAX
    requires t in s.consumed && t !in Apply(cfg, s, step).consumed
    ensures Expired(cfg, step.now, t.period)
  {
    assert step.action.CleanDust? && t.period == Least(s.dusting);
    ExpiredStays(cfg, since, step.now, t.period);
  }

  predicate Barred(cfg: Config, s: State, now: nat, t: Token) {
    t in s.consumed || Expired(cfg, now, t.period)
  }

  lemma BarredStays(cfg: Config, s: State, since: nat, step: Step, t: Token)
    requires DustExpired(cfg, s, since) && since <= step.now <= U32_MAX && Barred(cfg, s, since, t)
    ensures Barred(cfg, Apply(cfg, s, step), step.now, t) && !Accepts(cfg, s, step, t)
  {
    if Expired(cfg, since, t.period) {
      ExpiredStays(cfg, since, step.now, t.period);
    } else if t !in Apply(cfg, s, step).consumed {
      ErasedOnlyAfterExpiry(cfg, s, since, step, t);
    }
  }

  lemma {:induction false} BarredForever(cfg: Config, s: State, since: nat, steps: seq<Step>, t: Token)
    requires DustExpired(cfg, s, since) && Chronological(steps, since) && Barred(cfg, s, since, t)
    ensures Uses(cfg, s, steps, t) == 0
    decreases |steps|
  {
    if steps != [] {
      BarredStays(cfg, s, since, steps[0], t);
      StepKeepsDustExpired(cfg, s, since, steps[0]);
      BarredForever(cfg, Apply(cfg, s, steps[0]), steps[0].now, steps[1..], t);
    }
  }

  /** Over any run, deletions and dust clean-ups included, a paid token is accepted at most once. */
  lemma {:induction false} AcceptedAtMostOnce(cfg: Config, s: State, since: nat, steps: seq<Step>, t: Token)
    requires DustExpired(cfg, s, since) && Chronological(steps, since)
    ensures Uses(cfg, s, steps, t) <= 1
    decreases |steps|
  {
    if steps != [] {
      var next := Apply(cfg, s, steps[0]);
      StepKeepsDustExpired(cfg, s, since, steps[0]);
      if Accepts(cfg, s, steps[0], t) {
        BarredForever(cfg, next, steps[0].now, steps[1..], t);
      } else {
        AcceptedAtMostOnce(cfg, next, steps[0].now, steps[1..], t);
      }
    }
  }
}
