/** `PaidTknManager` as it runs: its storage maps updated in place, proved against `PaidTokens`. */
module PaidTokenManager {
  import opened Prelude
  import opened Ordered
  import opened PaidTokens

  ghost predicate Commits(before: State, after: State, ok: bool, spec: Option<State>) {
    (ok <==> spec.Some?) && after == if spec.Some? then spec.value else before
  }

  class Manager {
    const cfg: Config
    var members: set<Member>
    var created: set<Period>
    var nextRing: map<Period, nat>
    var consumed: set<Token>
    var dusting: set<Period>
    var service: map<Period, Collection>

    constructor (cfg: Config)
      ensures View() == Genesis() && this.cfg == cfg
    {
      this.cfg := cfg;
      members, created, nextRing := {}, {}, map[];
      consumed, dusting, service := {}, {}, map[];
    }

    ghost function View(): State
      reads this
    {
      State(members, created, nextRing, consumed, dusting, service)
    }

    method EnsureCollectionExists(p: Period, createOk: bool) returns (ok: bool)
      modifies this`created, this`service
      ensures Commits(old(View()), View(), ok, EnsureSpec(old(View()), p, createOk))
      ensures ok <==> p in old(created) || createOk
    {
      if p in created {
        return true;
      }
      if !createOk {
        return false;
      }
      service := service[p := Collection([], [])];
      created := created + {p};
      ok := true;
    }

    /** A refused call leaves no trace: the storage layer rolls back a collection it may have created. */
    method AddMember(now: nat, m: Member, ownsKey: bool, validKey: bool, createOk: bool, addOk: bool) returns (ok: bool)
      modifies this
      ensures Commits(old(View()), View(), ok, AddSpec(cfg, old(View()), now, m, ownsKey, validKey, createOk, addOk))
    {
      if !ownsKey || m in members || !validKey {
        return false;
      }
      var p := CurrentPeriod(cfg, now);
      var wasCreated, wasService := created, service;
      ok := EnsureCollectionExists(p, createOk);
      if !ok {
        return;
      }
      if !addOk {
        created, service := wasCreated, wasService;
        return false;
      }
      var c := if p in service then service[p] else Collection([], []);
      service := service[p := Collection(c.queue + [m], c.rings)];
      members := members + {m};
    }

    method CleanRing(now: nat, p: Period, i: nat) returns (ok: bool)
      modifies this`members, this`nextRing
      ensures Commits(old(View()), View(), ok, CleanRingSpec(cfg, old(View()), now, p, i))
    {
      var next := if p in nextRing then nextRing[p] else 0;
      var c := if p in service then service[p] else Collection([], []);
      if p !in created || AsU32(now) < ExpirationTime(cfg, p) || i != next || i >= |c.rings| || |c.rings[i]| == 0 {
        return false;
      }
      var ring := c.rings[i];
      var k := 0;
      while k < |ring|
        invariant 0 <= k <= |ring|
        invariant members == old(members) - Elements(ring[..k])
        invariant nextRing == old(nextRing)
      {
        members := members - {ring[k]};
        ElementsGrow(ring, k);
        k := k + 1;
      }
      assert ring[..k] == ring;
      nextRing := nextRing[p := i + 1];
      ok := true;
    }

    method DeleteCollection(now: nat, p: Period, deleteOk: bool) returns (ok: bool)
      modifies this
      ensures Commits(old(View()), View(), ok, DeleteSpec(cfg, old(View()), now, p, deleteOk))
    {
      var next := if p in nextRing then nextRing[p] else 0;
      var c := if p in service then service[p] else Collection([], []);
      if p !in created || AsU32(now) < ExpirationTime(cfg, p) || (next < |c.rings| && |c.rings[next]| > 0) || !deleteOk {
        return false;
      }
      service := service - {p};
      created := created - {p};
      nextRing := nextRing - {p};
      if exists t :: t in consumed && t.period == p {
        dusting := dusting + {p};
      }
      ok := true;
    }

    method ConsumeToken(now: nat, p: Period, i: nat, revisionOk: bool, genuine: bool, m: Member) returns (ok: bool)
      modifies this`consumed
      ensures Commits(old(View()), View(), ok, ConsumeSpec(cfg, old(View()), now, p, i, revisionOk, genuine, m))
    {
      if !revisionOk || AsU32(now) >= ExpirationTime(cfg, p) {
        return false;
      }
      var c := if p in service then service[p] else Collection([], []);
      if !genuine || i >= |c.rings| || m !in c.rings[i] || Token(p, i, m) in consumed {
        return false;
      }
      consumed := consumed + {Token(p, i, m)};
      ok := true;
    }

    method CleanDust(batch: set<Token>) returns (ok: bool)
      modifies this`consumed, this`dusting
      ensures Commits(old(View()), View(), ok, CleanDustSpec(old(View()), batch))
    {
      if dusting == {} {
        return false;
      }
      var p := Least(dusting);
      var dust := set t | t in consumed && t.period == p;
      if !(batch <= dust && |batch| == Min(DUST_BATCH, |dust|)) {
        return false;
      }
      consumed := consumed - batch;
      if dust <= batch {
        dusting := dusting - {p};
      }
      ok := true;
    }
  }

  lemma ElementsGrow(ring: seq<Member>, k: nat)
    requires k < |ring|
    ensures Elements(ring[..k + 1]) == Elements(ring[..k]) + {ring[k]}
  {
    assert ring[..k + 1] == ring[..k] + [ring[k]];
  }
}
