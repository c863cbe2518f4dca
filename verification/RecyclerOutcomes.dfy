/**
  When each recycler operation succeeds and what it leaves behind, said of rings, queues and marks
  alone. Above all: which revisions of a ring an unload may name, and until when.
*/
module RecyclerOutcomes {
  import opened Prelude
  import opened Recyclers
  import RM = RecyclerManager

  // ---------------------------------------------------------------------------------------------
  // Unloading
  // ---------------------------------------------------------------------------------------------

  /** The ring stands, its member service accepts proofs at the revision, and it was not sealed an expiry time ago. */
  ghost predicate Open(s: Storage, now: nat, expiry: nat, v: int, i: nat, revision: nat) {
    && v in s.collections && i < |s.collections[v].rings|
    && var ring := s.collections[v].rings[i];
       && !ring.removed && revision in ring.revisions
       && (ring.sealedAt.Some? ==> now < Min(U64_MAX, ring.sealedAt.value + expiry))
  }

  /** Each alias comes with a genuine proof by the member of the ring it belongs to. */
  ghost predicate Proven(ring: Ring, aliases: seq<Alias>, proofs: seq<Proof>) {
    && |aliases| == |proofs|
    && forall j :: 0 <= j < |proofs| ==>
         proofs[j].genuine && aliases[j].of == proofs[j].member && proofs[j].member in ring.members
  }

  ghost predicate Marked(s: Storage, k: RingKey, a: Alias) {
    k in s.marks && a in s.marks[k]
  }

  /** No alias was unloaded before, and none is named twice. */
  ghost predicate Unmarked(s: Storage, k: RingKey, aliases: seq<Alias>) {
    && (forall j :: 0 <= j < |aliases| ==> !Marked(s, k, aliases[j]))
    && (forall i, j :: 0 <= i < j < |aliases| ==> aliases[i] != aliases[j])
  }

  /** The aliases are marked under the ring, and nothing else changes. */
  ghost predicate Marks(s: Storage, t: Storage, k: RingKey, aliases: seq<Alias>) {
    && t == s.(marks := t.marks)
    && (forall a :: Marked(t, k, a) <==> Marked(s, k, a) || a in aliases)
    && (forall o :: o != k ==> (o in t.marks <==> o in s.marks) && (o in s.marks ==> t.marks[o] == s.marks[o]))
  }

  lemma UnloadExactly(s: Storage, now: nat, expiry: nat, v: int, i: nat, revision: nat, aliases: seq<Alias>, proofs: seq<Proof>)
    ensures var r := UnloadSpec(s, now, expiry, v, i, revision, aliases, proofs);
      && (r.Some? <==>
            && Open(s, now, expiry, v, i, revision)
            && Proven(s.collections[v].rings[i], aliases, proofs)
            && Unmarked(s, RingKey(v, i), aliases))
      && (r.Some? ==> Marks(s, r.value, RingKey(v, i), aliases))
  {
    var r, k := UnloadSpec(s, now, expiry, v, i, revision, aliases, proofs), RingKey(v, i);
    if Open(s, now, expiry, v, i, revision) && |aliases| == |proofs| {
      ProvenIff(s.collections[v].rings[i], aliases, proofs);
    }
    if r.Some? {
      ElementsMarked(s, k, aliases);
    }
  }

  lemma ProvenIff(ring: Ring, aliases: seq<Alias>, proofs: seq<Proof>)
    requires |aliases| == |proofs|
    ensures Proven(ring, aliases, proofs) <==> AllProofsHold(ring, proofs) && AliasesMatch(aliases, proofs)
  {
    if Proven(ring, aliases, proofs) {
      forall j | 0 <= j < |proofs|
        ensures ProofHolds(ring, proofs[j]) && Alias(proofs[j].member) == aliases[j]
      {
      }
    }
    if AllProofsHold(ring, proofs) && AliasesMatch(aliases, proofs) {
      forall j | 0 <= j < |proofs|
        ensures proofs[j].genuine && aliases[j].of == proofs[j].member && proofs[j].member in ring.members
      {
        assert ProofHolds(ring, proofs[j]) && Alias(proofs[j].member) == aliases[j];
      }
    }
  }

  lemma ElementsMarked(s: Storage, k: RingKey, aliases: seq<Alias>)
    ensures Marks(s, MarkAll(s, k, Elements(aliases)), k, aliases)
  {
    var t := MarkAll(s, k, Elements(aliases));
    forall a
      ensures Marked(t, k, a) <==> Marked(s, k, a) || a in aliases
    {
      assert a in Elements(aliases) <==> a in aliases;
    }
  }

  // ---------------------------------------------------------------------------------------------
  // Loading
  // ---------------------------------------------------------------------------------------------

  ghost function QueueOf(s: Storage, v: int): seq<Member> {
    if v in s.collections then s.collections[v].queue else []
  }

  ghost function RingsOf(s: Storage, v: int): seq<Ring> {
    if v in s.collections then s.collections[v].rings else []
  }

  /** The key waits at the end of the queue of its value and is recorded; no ring and no other queue changes. */
  lemma LoadExactly(env: LoadEnv, s: Storage, v: int, m: Member)
    ensures var r := LoadSpec(env, s, v, m);
      && (r.Ok? <==> m !in s.loaded && m !in env.invalidKeys && (v in s.collections || env.createOk) && env.addOk)
      && (r.Err? ==> r.error == if m in s.loaded then MemberKeyAlreadyUsed else if m in env.invalidKeys then InvalidMemberKey
                                else if v !in s.collections && !env.createOk then CannotCreateRecyclerCollection else InternalError)
      && (r.Ok? ==>
            && r.value == s.(collections := r.value.collections, loaded := s.loaded[m := v])
            && r.value.collections.Keys == s.collections.Keys + {v}
            && QueueOf(r.value, v) == QueueOf(s, v) + [m] && RingsOf(r.value, v) == RingsOf(s, v)
            && forall u :: u != v ==> QueueOf(r.value, u) == QueueOf(s, u) && RingsOf(r.value, u) == RingsOf(s, u))
  {
  }

  /** A batch is loaded whole: every value's queue gets its members in the order they come. */
  lemma GroupedExactly(env: LoadEnv, s: Storage, vouchers: seq<Voucher>, v: int)
    ensures var r := LoadGroupedSpec(env, s, vouchers);
      && (r.Some? <==>
            && (forall i :: 0 <= i < |vouchers| ==>
                  vouchers[i].member !in s.loaded && vouchers[i].member !in env.invalidKeys
                  && (vouchers[i].value in s.collections || env.createOk))
            && (forall i, j :: 0 <= i < j < |vouchers| ==> vouchers[i].member != vouchers[j].member)
            && (vouchers == [] || env.addOk))
      && (r.Some? ==>
            && QueueOf(r.value, v) == QueueOf(s, v) + RM.MembersOf(vouchers, v) && RingsOf(r.value, v) == RingsOf(s, v)
            && RM.Recorded(s, r.value.loaded, vouchers)
            && r.value == s.(collections := r.value.collections, loaded := r.value.loaded))
  {
    var r := LoadGroupedSpec(env, s, vouchers);
    if r.Some? {
      RM.EnqueueAllQueues(s, vouchers, v);
      RM.EnqueueAllRecords(env, s, vouchers);
    }
  }

  // ---------------------------------------------------------------------------------------------
  // Cleaning and dusting
  // ---------------------------------------------------------------------------------------------

  ghost function NextRing(s: Storage, v: int): nat {
    if v in s.lastRemoved then s.lastRemoved[v] + 1 else 0
  }

  /** Rings go in order, each no sooner than an expiry time after its sealing, on a clock of 32-bit seconds. */
  lemma CleanableExactly(s: Storage, now: nat, expiry: nat, v: int)
    requires now <= U32_MAX
    ensures CanClean(s, now, expiry, v) <==>
      && v in s.collections && NextRing(s, v) < |s.collections[v].rings|
      && var ring := s.collections[v].rings[NextRing(s, v)];
         ring.sealedAt.Some? && Min(U32_MAX, AsU32(ring.sealedAt.value) + expiry) <= now
  {
    assert AsU32(now) == now;
  }

  /** One ring is marked removed and its members forgotten; its marks, if any, wait for dusting. */
  lemma CleanExactly(s: Storage, v: int)
    requires v in s.collections && NextToClean(s.lastRemoved, v) < |s.collections[v].rings|
    ensures NextToClean(s.lastRemoved, v) == NextRing(s, v)
    ensures var i := NextRing(s, v);
      var t, ring := Clean(s, v), s.collections[v].rings[i];
      && t.marks == s.marks && t.lastRemoved == s.lastRemoved[v := i]
      && (forall m :: m in t.loaded <==> m in s.loaded && m !in ring.members)
      && (forall m :: m in t.loaded ==> t.loaded[m] == s.loaded[m])
      && (forall k :: k in t.dusting <==> k in s.dusting || (k == RingKey(v, i) && k in s.marks && s.marks[k] != {}))
      && t.collections.Keys == s.collections.Keys
      && (forall u :: u in s.collections && u != v ==> t.collections[u] == s.collections[u])
      && t.collections[v].queue == s.collections[v].queue
      && |t.collections[v].rings| == |s.collections[v].rings|
      && (forall j :: 0 <= j < |s.collections[v].rings| && j != i ==> t.collections[v].rings[j] == s.collections[v].rings[j])
      && t.collections[v].rings[i] == Ring(ring.members, ring.sealedAt, ring.revisions, true)
    ensures var i := NextRing(s, v);
      var marked := if RingKey(v, i) in s.marks then |s.marks[RingKey(v, i)]| else 0;
      RemainingCoins(s, v) == Max(0, |s.collections[v].rings[i].members| - marked)
  {
  }

  /** Exactly the batch goes; the ring leaves the dusting queue with its last mark. */
  lemma DustExactly(s: Storage, k: RingKey, batch: set<Alias>)
    ensures var t := CleanDust(s, k, batch);
      && t == s.(marks := t.marks, dusting := t.dusting)
      && (forall a :: Marked(t, k, a) <==> Marked(s, k, a) && a !in batch)
      && (forall o :: o != k ==> (o in t.marks <==> o in s.marks) && (o in s.marks ==> t.marks[o] == s.marks[o]))
      && (forall o :: o != k ==> (o in t.dusting <==> o in s.dusting))
      && (k in t.dusting <==> k in s.dusting && exists a :: Marked(s, k, a) && a !in batch)
  {
    var left := MarksOf(s.marks, k) - batch;
    forall a
      ensures Marked(CleanDust(s, k, batch), k, a) <==> Marked(s, k, a) && a !in batch
    {
      assert a in left <==> Marked(s, k, a) && a !in batch;
    }
    if left != {} {
      var a :| a in left;
      assert Marked(s, k, a) && a !in batch;
    }
  }

  // ---------------------------------------------------------------------------------------------
  // Steps of the member service
  // ---------------------------------------------------------------------------------------------

  /** Rings the next member may join: the last one, unless it is sealed or removed. */
  ghost predicate LastIsOpen(rings: seq<Ring>) {
    rings != [] && rings[|rings| - 1].sealedAt.None? && !rings[|rings| - 1].removed
  }

  /** The head of the queue joins the last ring, or one of its own without a root; nothing else changes. */
  lemma OnboardExactly(s: Storage, v: int, startNew: bool)
    requires v in s.collections && s.collections[v].queue != []
    ensures CanOnboard(s, v)
    ensures var t, m, rings := Onboard(s, v, startNew), s.collections[v].queue[0], s.collections[v].rings;
      && t == s.(collections := t.collections) && t.collections.Keys == s.collections.Keys
      && (forall u :: u in s.collections && u != v ==> t.collections[u] == s.collections[u])
      && s.collections[v].queue == [m] + t.collections[v].queue
      && if startNew || !LastIsOpen(rings) then t.collections[v].rings == rings + [Ring([m], None, {}, false)]
         else
           && |t.collections[v].rings| == |rings|
           && (forall j :: 0 <= j < |rings| - 1 ==> t.collections[v].rings[j] == rings[j])
           && t.collections[v].rings[|rings| - 1] == rings[|rings| - 1].(members := rings[|rings| - 1].members + [m])
  {
  }

  /** A build changes the accepted revisions of one ring; its sealing time is written once and stays. */
  lemma RebuildExactly(s: Storage, v: int, i: nat, revisions: set<nat>, sealedAt: Option<nat>)
    requires v in s.collections && i < |s.collections[v].rings|
    ensures var t, ring := Rebuild(s, v, i, revisions, sealedAt), s.collections[v].rings[i];
      && t == s.(collections := t.collections) && t.collections.Keys == s.collections.Keys
      && (forall u :: u in s.collections && u != v ==> t.collections[u] == s.collections[u])
      && t.collections[v].queue == s.collections[v].queue && |t.collections[v].rings| == |s.collections[v].rings|
      && (forall j :: 0 <= j < |s.collections[v].rings| && j != i ==> t.collections[v].rings[j] == s.collections[v].rings[j])
      && t.collections[v].rings[i] == Ring(ring.members, if ring.sealedAt.Some? then ring.sealedAt else sealedAt, revisions, ring.removed)
  {
  }
}
