/**
  Recycler storage (`pallets/coinage/src/recycler_manager.rs`) over the member service it delegates
  ring building to. Every operation is given here as a function of the storage; the class that
  updates the storage in place is proved against these functions in `RecyclerManager.dfy`.

  The member service is seen through its contract (`pallets/members/src/lib.rs`): members wait in a
  queue, are appended to rings, and a removed ring index is never used again. A ring proof either
  fails or yields the alias of a member of the ring; aliases of one context are injective.
*/
module Recyclers {
  import opened Prelude

  type Member = nat

  /** The alias of a member in the unloading context. */
  datatype Alias = Alias(of: Member)

  /** A ring-VRF proof: the member it was made by, and whether verification accepts it. */
  datatype Proof = Proof(member: Member, genuine: bool)

  /** `revisions` are the roots the member service would accept; `sealedAt` is `immutable_since`. */
  datatype Ring = Ring(members: seq<Member>, sealedAt: Option<nat>, revisions: set<nat>, removed: bool)

  datatype Collection = Collection(queue: seq<Member>, rings: seq<Ring>)

  datatype RingKey = RingKey(value: int, index: nat)

  datatype Storage = Storage(
    collections: map<int, Collection>,
    loaded: map<Member, int>,
    marks: map<RingKey, set<Alias>>,
    dusting: set<RingKey>,
    lastRemoved: map<int, nat>)

  datatype Error =
    | MemberKeyAlreadyUsed | InvalidMemberKey | CannotCreateRecyclerCollection | InternalError
    | ProofAndAliasMismatch | InvalidRecyclerRevision | InvalidAliasProof | RecyclerAlreadyUnloaded

  const DUST_BATCH: nat := 1000

  function MarksOf(marks: map<RingKey, set<Alias>>, k: RingKey): set<Alias> {
    if k in marks then marks[k] else {}
  }

  function AliasSet(members: seq<Member>): set<Alias> {
    set m | m in members :: Alias(m)
  }

  /** `next_ring_to_clean`: rings are removed in index order. */
  function NextToClean(lastRemoved: map<int, nat>, v: int): nat {
    if v in lastRemoved then lastRemoved[v] + 1 else 0
  }

  // ---------------------------------------------------------------------------------------------
  // Loading
  // ---------------------------------------------------------------------------------------------

  function CollectionOf(s: Storage, v: int): Collection {
    if v in s.collections then s.collections[v] else Collection([], [])
  }

  /** Queue a member for a value, creating the collection when it is missing. */
  function Enqueue(s: Storage, v: int, m: Member): Storage {
    var c := CollectionOf(s, v);
    s.(collections := s.collections[v := c.(queue := c.queue + [m])], loaded := s.loaded[m := v])
  }

  /** What the outside answers during a load: key well-formedness and the member service calls. */
  datatype LoadEnv = LoadEnv(invalidKeys: set<Member>, createOk: bool, addOk: bool)

  function LoadSpec(env: LoadEnv, s: Storage, v: int, m: Member): Result<Storage, Error> {
    if m in s.loaded then Err(MemberKeyAlreadyUsed)
    else if m in env.invalidKeys then Err(InvalidMemberKey)
    else if v !in s.collections && !env.createOk then Err(CannotCreateRecyclerCollection)
    else if !env.addOk then Err(InternalError)
    else Ok(Enqueue(s, v, m))
  }

  datatype Voucher = Voucher(value: int, member: Member)

  function EnqueueAll(s: Storage, vouchers: seq<Voucher>): Storage
    decreases |vouchers|
  {
    if vouchers == [] then s
    else
      var n := |vouchers| - 1;
      Enqueue(EnqueueAll(s, vouchers[..n]), vouchers[n].value, vouchers[n].member)
  }

  predicate FreshVouchers(env: LoadEnv, s: Storage, vouchers: seq<Voucher>) {
    && (forall i :: 0 <= i < |vouchers| ==> vouchers[i].member !in s.loaded && vouchers[i].member !in env.invalidKeys)
    && (forall i, j :: 0 <= i < j < |vouchers| ==> vouchers[i].member != vouchers[j].member)
  }

  /** `load_batch_grouped`: all or nothing, so a collection it cannot create refuses the batch. */
  function LoadGroupedSpec(env: LoadEnv, s: Storage, vouchers: seq<Voucher>): Option<Storage> {
    if !FreshVouchers(env, s, vouchers) then None
    else if !env.createOk && exists i :: 0 <= i < |vouchers| && vouchers[i].value !in s.collections then None
    else if !env.addOk && vouchers != [] then None
    else Some(EnqueueAll(s, vouchers))
  }

  // ---------------------------------------------------------------------------------------------
  // Unloading
  // ---------------------------------------------------------------------------------------------

  /** `validate_recycler_revision`: the ring has a root, has not expired, and knows the revision. */
  predicate Spendable(s: Storage, now: nat, expiry: nat, v: int, i: nat, revision: nat) {
    && v in s.collections
    && i < |s.collections[v].rings|
    && var ring := s.collections[v].rings[i];
       && !ring.removed
       && (ring.sealedAt.Some? ==> now < SatAdd(ring.sealedAt.value, expiry, U64_MAX))
       && revision in ring.revisions
  }

  predicate ProofHolds(ring: Ring, p: Proof) {
    p.genuine && p.member in ring.members
  }

  predicate AllProofsHold(ring: Ring, proofs: seq<Proof>) {
    forall j :: 0 <= j < |proofs| ==> ProofHolds(ring, proofs[j])
  }

  predicate AliasesMatch(aliases: seq<Alias>, proofs: seq<Proof>)
    requires |aliases| == |proofs|
  {
    forall j :: 0 <= j < |aliases| ==> Alias(proofs[j].member) == aliases[j]
  }

  /** No alias was unloaded before, and none appears twice in the request. */
  predicate AllUnspent(marked: set<Alias>, aliases: seq<Alias>) {
    (forall j :: 0 <= j < |aliases| ==> aliases[j] !in marked) && Distinct(aliases)
  }

  function MarkAll(s: Storage, k: RingKey, aliases: set<Alias>): Storage {
    if aliases == {} then s else s.(marks := s.marks[k := MarksOf(s.marks, k) + aliases])
  }

  predicate CanUnload(s: Storage, now: nat, expiry: nat, v: int, i: nat, revision: nat, aliases: seq<Alias>, proofs: seq<Proof>) {
    && |aliases| == |proofs|
    && Spendable(s, now, expiry, v, i, revision)
    && AllProofsHold(s.collections[v].rings[i], proofs)
    && AliasesMatch(aliases, proofs)
    && AllUnspent(MarksOf(s.marks, RingKey(v, i)), aliases)
  }

  /** `unload`: all proofs are verified, then each alias is checked and marked in turn. */
  function UnloadSpec(s: Storage, now: nat, expiry: nat, v: int, i: nat, revision: nat, aliases: seq<Alias>, proofs: seq<Proof>)
    : Option<Storage>
  {
    if CanUnload(s, now, expiry, v, i, revision, aliases, proofs)
    then Some(MarkAll(s, RingKey(v, i), Elements(aliases)))
    else None
  }

  // ---------------------------------------------------------------------------------------------
  // Clean-up
  // ---------------------------------------------------------------------------------------------

  /** `ensure_can_clean`: the arithmetic is done on `u32` seconds. */
  predicate Expired32(now: nat, sealedAt: nat, expiry: nat) {
    AsU32(now) >= SatAdd(AsU32(sealedAt), expiry, U32_MAX)
  }

  predicate CanClean(s: Storage, now: nat, expiry: nat, v: int) {
    var next := NextToClean(s.lastRemoved, v);
    && v in s.collections
    && next < |s.collections[v].rings|
    && s.collections[v].rings[next].sealedAt.Some?
    && Expired32(now, s.collections[v].rings[next].sealedAt.value, expiry)
  }

  function Forget(loaded: map<Member, int>, members: seq<Member>): map<Member, int> {
    map m | m in loaded && m !in members :: loaded[m]
  }

  /** `clean_unchecked`: drop the oldest ring, queue its marks for dusting, report what was left. */
  function Clean(s: Storage, v: int): Storage
    requires v in s.collections && NextToClean(s.lastRemoved, v) < |s.collections[v].rings|
  {
    var i := NextToClean(s.lastRemoved, v);
    var c := s.collections[v];
    var k := RingKey(v, i);
    Storage(
      s.collections[v := c.(rings := c.rings[i := c.rings[i].(removed := true)])],
      Forget(s.loaded, c.rings[i].members),
      s.marks,
      if MarksOf(s.marks, k) != {} then s.dusting + {k} else s.dusting,
      s.lastRemoved[v := i])
  }

  function RemainingCoins(s: Storage, v: int): nat
    requires v in s.collections && NextToClean(s.lastRemoved, v) < |s.collections[v].rings|
  {
    var i := NextToClean(s.lastRemoved, v);
    SatSub(|s.collections[v].rings[i].members|, |MarksOf(s.marks, RingKey(v, i))|)
  }

  /** `clean_dust_unchecked`: a batch of marks of one dusted ring goes, and the entry with the last. */
  function CleanDust(s: Storage, k: RingKey, batch: set<Alias>): Storage {
    var left := MarksOf(s.marks, k) - batch;
    if left == {} then s.(marks := s.marks - {k}, dusting := s.dusting - {k})
    else s.(marks := s.marks[k := left])
  }

  // ---------------------------------------------------------------------------------------------
  // Steps of the member service
  // ---------------------------------------------------------------------------------------------

  predicate CanOnboard(s: Storage, v: int) {
    v in s.collections && s.collections[v].queue != []
  }

  /** The head of the queue joins the open ring, or starts the next one. */
  function Onboard(s: Storage, v: int, startNew: bool): Storage
    requires CanOnboard(s, v)
  {
    var c := s.collections[v];
    var m, n := c.queue[0], |c.rings|;
    var open := !startNew && n > 0 && c.rings[n - 1].sealedAt.None? && !c.rings[n - 1].removed;
    var rings := if open
                 then c.rings[n - 1 := c.rings[n - 1].(members := c.rings[n - 1].members + [m])]
                 else c.rings + [Ring([m], None, {}, false)];
    s.(collections := s.collections[v := Collection(c.queue[1..], rings)])
  }

  /** A root is built or an old one lapses; a full ring becomes immutable when it is built. */
  function Rebuild(s: Storage, v: int, i: nat, revisions: set<nat>, sealedAt: Option<nat>): Storage
    requires v in s.collections && i < |s.collections[v].rings|
  {
    var c := s.collections[v];
    var ring := c.rings[i];
    var built := ring.(revisions := revisions, sealedAt := if ring.sealedAt.Some? then ring.sealedAt else sealedAt);
    s.(collections := s.collections[v := c.(rings := c.rings[i := built])])
  }
}
