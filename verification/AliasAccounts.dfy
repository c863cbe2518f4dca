/**
  The two-way alias index of `pallets/alias-accounts/src/lib.rs`. Ring proofs are verified by the
  member service; here a proof carries the alias it recovers and whether verification accepts it.
*/
module AliasAccounts {
  import opened Prelude

  type Account = nat

  /** Collection, context and alias: the key of `AliasToAccount`. */
  datatype Key = Key(collection: nat, context: nat, alias: nat)

  datatype AliasInfo = AliasInfo(key: Key, ring: nat, revision: nat)

  datatype Proof = Proof(alias: nat, genuine: bool)

  /** What the member service knows of one ring: the latest revision and every retained one. */
  datatype RingFacts = RingFacts(latest: Option<nat>, sourceTimes: map<nat, nat>)

  datatype Config = Config(proofWindow: nat, grace: nat, people: nat, peopleLite: nat)

  /** Everything a call reads but does not write. */
  datatype Env = Env(now: nat, rings: map<(nat, nat), RingFacts>, fee: Option<nat>, burnOk: bool)

  datatype State = State(
    aliasOf: map<Account, AliasInfo>,
    accountOf: map<Key, Account>,
    sufficients: map<Account, nat>)

  datatype Error =
    | InvalidAccount | AliasFeeUnset | TimeOutOfRange | InvalidCollection | StaleRevision | BadProof
    | AliasAccountAlreadySet | AccountInUse | BurnFailed | ReproveMismatch | InconsistentState
    | AliasNotStale | CleanupTooEarly

  function Sufficients(s: map<Account, nat>, a: Account): nat {
    if a in s then s[a] else 0
  }

  function Inc(s: map<Account, nat>, a: Account): map<Account, nat> {
    s[a := Sufficients(s, a) + 1]
  }

  function Dec(s: map<Account, nat>, a: Account): map<Account, nat> {
    s[a := SatSub(Sufficients(s, a), 1)]
  }

  /** `is_revision_valid`: retained by a ring that still has a root. */
  predicate RevisionValid(env: Env, collection: nat, ring: nat, revision: nat) {
    && (collection, ring) in env.rings
    && env.rings[(collection, ring)].latest.Some?
    && revision in env.rings[(collection, ring)].sourceTimes
  }

  predicate InGrace(cfg: Config, env: Env, collection: nat, ring: nat, revision: nat) {
    && RevisionValid(env, collection, ring, revision)
    && var facts := env.rings[(collection, ring)];
       (facts.latest == Some(revision)
        || env.now <= SatAdd(facts.sourceTimes[revision], cfg.grace, U64_MAX))
  }

  /** `ensure_alias_is_stale`. */
  function EnsureStale(cfg: Config, env: Env, info: AliasInfo): Result<(), Error> {
    var c := info.key.collection;
    if InGrace(cfg, env, c, info.ring, info.revision) then Err(AliasNotStale)
    else if (c, info.ring) !in env.rings || env.rings[(c, info.ring)].latest.None? then Ok(())
    else
      var facts := env.rings[(c, info.ring)];
      var newest := if facts.latest.value in facts.sourceTimes then facts.sourceTimes[facts.latest.value] else 0;
      if env.now >= SatAdd(newest, cfg.grace, U64_MAX) then Ok(()) else Err(CleanupTooEarly)
  }

  function VerifyProof(cfg: Config, env: Env, proof: Proof, collection: nat, ring: nat, revision: nat, context: nat)
    : Result<AliasInfo, Error>
  {
    if collection != cfg.peopleLite && collection != cfg.people then Err(InvalidCollection)
    else if !InGrace(cfg, env, collection, ring, revision) then Err(StaleRevision)
    else if !proof.genuine then Err(BadProof)
    else Ok(AliasInfo(Key(collection, context, proof.alias), ring, revision))
  }

  predicate TimeInWindow(cfg: Config, env: Env, validAt: nat) {
    validAt <= env.now && env.now <= SatAdd(validAt, cfg.proofWindow, U64_MAX)
  }

  // ---------------------------------------------------------------------------------------------
  // What each call makes of the state
  // ---------------------------------------------------------------------------------------------

  function Bind(s: State, who: Account, info: AliasInfo): State {
    if info.key in s.accountOf && s.accountOf[info.key] == who then
      s.(aliasOf := s.aliasOf[who := info])
    else if info.key in s.accountOf then
      var former := s.accountOf[info.key];
      State((s.aliasOf - {former})[who := info], s.accountOf[info.key := who], Inc(Dec(s.sufficients, former), who))
    else
      State(s.aliasOf[who := info], s.accountOf[info.key := who], Inc(s.sufficients, who))
  }

  function Unbind(s: State, who: Account): State
    requires who in s.aliasOf
  {
    State(s.aliasOf - {who}, s.accountOf - {s.aliasOf[who].key}, Dec(s.sufficients, who))
  }

  function SetSpec(cfg: Config, env: Env, s: State, who: Account, proof: Proof, collection: nat, ring: nat,
                   revision: nat, context: nat, validAt: nat): Result<State, Error>
  {
    if env.fee.None? then Err(AliasFeeUnset)
    else if !TimeInWindow(cfg, env, validAt) then Err(TimeOutOfRange)
    else
      var verified := VerifyProof(cfg, env, proof, collection, ring, revision, context);
      if verified.Err? then Err(verified.error)
      else
        var info := verified.value;
        var rebind := !(info.key in s.accountOf && s.accountOf[info.key] == who);
        if !rebind && who in s.aliasOf && s.aliasOf[who] == info then Err(AliasAccountAlreadySet)
        else if rebind && who in s.aliasOf then Err(AccountInUse)
        else if !env.burnOk then Err(BurnFailed)
        else Ok(Bind(s, who, info))
  }

  function UnsetSpec(s: State, who: Account): Result<State, Error> {
    if who !in s.aliasOf then Err(InvalidAccount) else Ok(Unbind(s, who))
  }

  function ReproveSpec(cfg: Config, env: Env, s: State, who: Account, proof: Proof, ring: nat, revision: nat, validAt: nat)
    : Result<State, Error>
  {
    if !TimeInWindow(cfg, env, validAt) then Err(TimeOutOfRange)
    else if who !in s.aliasOf then Err(InvalidAccount)
    else
      var held := s.aliasOf[who];
      var verified := VerifyProof(cfg, env, proof, held.key.collection, ring, revision, held.key.context);
      if verified.Err? then Err(verified.error)
      else if verified.value.key.alias != held.key.alias then Err(ReproveMismatch)
      else if ring == held.ring && revision <= held.revision then Err(AliasAccountAlreadySet)
      else Ok(s.(aliasOf := s.aliasOf[who := AliasInfo(held.key, ring, revision)]))
  }

  function CleanUpSpec(cfg: Config, env: Env, s: State, key: Key): Result<State, Error> {
    if key !in s.accountOf then Err(InvalidAccount)
    else
      var account := s.accountOf[key];
      if account !in s.aliasOf then Err(InvalidAccount)
      else if s.aliasOf[account].key.collection != key.collection then Err(InconsistentState)
      else
        var stale := EnsureStale(cfg, env, s.aliasOf[account]);
        if stale.Err? then Err(stale.error)
        else Ok(State(s.aliasOf - {account}, s.accountOf - {key}, Dec(s.sufficients, account)))
  }

  // ---------------------------------------------------------------------------------------------
  // The index invariant over every run
  // ---------------------------------------------------------------------------------------------

  /** The two maps are mutually inverse. */
  ghost predicate Inverse(s: State) {
    && (forall a :: a in s.aliasOf ==> s.aliasOf[a].key in s.accountOf && s.accountOf[s.aliasOf[a].key] == a)
    && (forall k :: k in s.accountOf ==> s.accountOf[k] in s.aliasOf && s.aliasOf[s.accountOf[k]].key == k)
  }

  /** The pallet contributes one sufficient reference per bound account and none otherwise. */
  ghost predicate Counted(s: State, others: map<Account, nat>) {
    forall a :: Sufficients(s.sufficients, a) == Sufficients(others, a) + (if a in s.aliasOf then 1 else 0)
  }

  ghost predicate Inv(s: State, others: map<Account, nat>) {
    Inverse(s) && Counted(s, others)
  }

  datatype Call =
    | Set(who: Account, proof: Proof, collection: nat, ring: nat, revision: nat, context: nat, validAt: nat)
    | Unset(who: Account)
    | Reprove(who: Account, proof: Proof, ring: nat, revision: nat, validAt: nat)
    | CleanUp(key: Key)

  function Outcome(cfg: Config, env: Env, s: State, call: Call): Result<State, Error> {
    match call
    case Set(who, proof, collection, ring, revision, context, validAt) =>
      SetSpec(cfg, env, s, who, proof, collection, ring, revision, context, validAt)
    case Unset(who) => UnsetSpec(s, who)
    case Reprove(who, proof, ring, revision, validAt) => ReproveSpec(cfg, env, s, who, proof, ring, revision, validAt)
    case CleanUp(key) => CleanUpSpec(cfg, env, s, key)
  }

  /** A failed call rolls back. */
  function Apply(cfg: Config, s: State, step: (Env, Call)): State {
    var r := Outcome(cfg, step.0, s, step.1);
    if r.Ok? then r.value else s
  }

  function Run(cfg: Config, s: State, steps: seq<(Env, Call)>): State
    decreases |steps|
  {
    if steps == [] then s else Run(cfg, Apply(cfg, s, steps[0]), steps[1..])
  }

  lemma BindKeeps(s: State, others: map<Account, nat>, who: Account, info: AliasInfo)
    requires Inv(s, others)
    requires who in s.aliasOf ==> info.key in s.accountOf && s.accountOf[info.key] == who
    ensures Inv(Bind(s, who, info), others)
  {
    var t := Bind(s, who, info);
    BindInverse(s, who, info);
    forall a
      ensures Sufficients(t.sufficients, a) == Sufficients(others, a) + (if a in t.aliasOf then 1 else 0)
    {
      assert Sufficients(s.sufficients, a) == Sufficients(others, a) + (if a in s.aliasOf then 1 else 0);
    }
  }

  lemma BindInverse(s: State, who: Account, info: AliasInfo)
    requires Inverse(s)
    requires who in s.aliasOf ==> info.key in s.accountOf && s.accountOf[info.key] == who
    ensures Inverse(Bind(s, who, info))
  {
  }

  lemma UnbindKeeps(s: State, others: map<Account, nat>, who: Account)
    requires Inv(s, others) && who in s.aliasOf
    ensures Inv(Unbind(s, who), others)
  {
    var t := Unbind(s, who);
    forall a
      ensures Sufficients(t.sufficients, a) == Sufficients(others, a) + (if a in t.aliasOf then 1 else 0)
    {
      assert Sufficients(s.sufficients, a) == Sufficients(others, a) + (if a in s.aliasOf then 1 else 0);
    }
  }

  lemma RenewKeeps(s: State, others: map<Account, nat>, who: Account, info: AliasInfo)
    requires Inv(s, others) && who in s.aliasOf && info.key == s.aliasOf[who].key
    ensures Inv(s.(aliasOf := s.aliasOf[who := info]), others)
  {
    var t := s.(aliasOf := s.aliasOf[who := info]);
    assert Counted(t, others) by {
      forall a
        ensures Sufficients(t.sufficients, a) == Sufficients(others, a) + (if a in t.aliasOf then 1 else 0)
      {
        assert Sufficients(s.sufficients, a) == Sufficients(others, a) + (if a in s.aliasOf then 1 else 0);
      }
    }
  }

  /** Clean-up removes the pair it was asked about: under the invariant it is an unbind. */
  lemma CleanUpIsUnbind(cfg: Config, env: Env, s: State, key: Key)
    requires Inverse(s) && CleanUpSpec(cfg, env, s, key).Ok?
    ensures s.accountOf[key] in s.aliasOf
    ensures CleanUpSpec(cfg, env, s, key).value == Unbind(s, s.accountOf[key])
  {
  }

  lemma ApplyKeeps(cfg: Config, s: State, others: map<Account, nat>, step: (Env, Call))
    requires Inv(s, others)
    ensures Inv(Apply(cfg, s, step), others)
  {
    var (env, call) := step;
    if Outcome(cfg, env, s, call).Ok? {
      match call {
        case Set(who, proof, collection, ring, revision, context, validAt) =>
          BindKeeps(s, others, who, VerifyProof(cfg, env, proof, collection, ring, revision, context).value);
        case Unset(who) =>
          UnbindKeeps(s, others, who);
        case Reprove(who, proof, ring, revision, validAt) =>
          RenewKeeps(s, others, who, AliasInfo(s.aliasOf[who].key, ring, revision));
        case CleanUp(key) =>
          CleanUpIsUnbind(cfg, env, s, key);
          UnbindKeeps(s, others, s.accountOf[key]);
      }
    }
  }

  /** Over every run of set, swap, unset, reprove and clean-up, failed calls included. */
  lemma {:induction false} RunKeeps(cfg: Config, s: State, others: map<Account, nat>, steps: seq<(Env, Call)>)
    requires Inv(s, others)
    ensures Inv(Run(cfg, s, steps), others)
    decreases |steps|
  {
    if steps != [] {
      ApplyKeeps(cfg, s, others, steps[0]);
      RunKeeps(cfg, Apply(cfg, s, steps[0]), others, steps[1..]);
    }
  }

  /** `personhood_info`: the lookup answers only for a bound account in its context and in grace. */
  function PersonhoodInfo(cfg: Config, env: Env, s: State, account: Account, context: nat): Option<(nat, nat)> {
    if account !in s.aliasOf then None
    else
      var info := s.aliasOf[account];
      if info.key.context != context || !InGrace(cfg, env, info.key.collection, info.ring, info.revision) then None
      else Some((info.key.collection, info.key.alias))
  }

  /** Two accounts are never recognised as the same person of one context at the same time. */
  lemma OneAccountPerPerson(cfg: Config, env: Env, s: State, a: Account, b: Account, context: nat)
    requires Inverse(s)
    requires PersonhoodInfo(cfg, env, s, a, context).Some?
    requires PersonhoodInfo(cfg, env, s, a, context) == PersonhoodInfo(cfg, env, s, b, context)
    ensures a == b
  {
    assert s.aliasOf[a].key == s.aliasOf[b].key;
  }

  /** Clean-up never takes away a mapping the lookup still honours, and touches no other account. */
  lemma CleanUpSparesLiveAliases(cfg: Config, env: Env, s: State, key: Key, account: Account, context: nat)
    requires Inverse(s) && CleanUpSpec(cfg, env, s, key).Ok?
    ensures PersonhoodInfo(cfg, env, CleanUpSpec(cfg, env, s, key).value, account, context)
         == PersonhoodInfo(cfg, env, s, account, context)
  {
    CleanUpIsUnbind(cfg, env, s, key);
  }

  // ---------------------------------------------------------------------------------------------
  // The calls themselves
  // ---------------------------------------------------------------------------------------------

  /** The call answers as specified and leaves the specified state: the old one when it failed. */
  ghost predicate Commits(before: State, after: State, r: Result<(), Error>, spec: Result<State, Error>) {
    && (r.Ok? <==> spec.Ok?)
    && (r.Err? ==> spec.Err? && r.error == spec.error)
    && after == (if spec.Ok? then spec.value else before)
  }

  class Pallet {
    const cfg: Config
    var aliasOf: map<Account, AliasInfo>
    var accountOf: map<Key, Account>
    var sufficients: map<Account, nat>

    constructor (cfg: Config, sufficients: map<Account, nat>)
      ensures View() == State(map[], map[], sufficients) && this.cfg == cfg
      ensures Inv(View(), sufficients)
    {
      this.cfg := cfg;
      aliasOf, accountOf, this.sufficients := map[], map[], sufficients;
    }

    ghost function View(): State
      reads this
    {
      State(aliasOf, accountOf, sufficients)
    }

    method UnsetAliasAccount(who: Account) returns (r: Result<(), Error>)
      modifies this
      ensures Commits(old(View()), View(), r, UnsetSpec(old(View()), who))
    {
      if who !in aliasOf {
        return Err(InvalidAccount);
      }
      var info := aliasOf[who];
      aliasOf := aliasOf - {who};
      accountOf := accountOf - {info.key};
      sufficients := Dec(sufficients, who);
      r := Ok(());
    }

    method SetAliasAccount(env: Env, who: Account, proof: Proof, collection: nat, ring: nat, revision: nat,
                           context: nat, validAt: nat) returns (r: Result<(), Error>)
      modifies this
      ensures Commits(old(View()), View(), r, SetSpec(cfg, env, old(View()), who, proof, collection, ring, revision, context, validAt))
    {
      if env.fee.None? {
        return Err(AliasFeeUnset);
      }
      if !TimeInWindow(cfg, env, validAt) {
        return Err(TimeOutOfRange);
      }
      var verified := VerifyProof(cfg, env, proof, collection, ring, revision, context);
      if verified.Err? {
        return Err(verified.error);
      }
      var info := verified.value;
      var former := if info.key in accountOf then Some(accountOf[info.key]) else None;
      var isNewAccount := former != Some(who);
      if !isNewAccount && who in aliasOf && aliasOf[who] == info {
        return Err(AliasAccountAlreadySet);
      }
      if isNewAccount && who in aliasOf {
        return Err(AccountInUse);
      }
      if !env.burnOk {
        return Err(BurnFailed);
      }
      if isNewAccount {
        if former.Some? {
          sufficients := Dec(sufficients, former.value);
          aliasOf := aliasOf - {former.value};
        }
        sufficients := Inc(sufficients, who);
      }
      aliasOf := aliasOf[who := info];
      accountOf := accountOf[info.key := who];
      assert !isNewAccount ==> accountOf == old(accountOf);
      r := Ok(());
    }

    method ReproveAliasAccount(env: Env, who: Account, proof: Proof, ring: nat, revision: nat, validAt: nat)
      returns (r: Result<(), Error>)
      modifies this
      ensures Commits(old(View()), View(), r, ReproveSpec(cfg, env, old(View()), who, proof, ring, revision, validAt))
    {
      if !TimeInWindow(cfg, env, validAt) {
        return Err(TimeOutOfRange);
      }
      if who !in aliasOf {
        return Err(InvalidAccount);
      }
      var held := aliasOf[who];
      var verified := VerifyProof(cfg, env, proof, held.key.collection, ring, revision, held.key.context);
      if verified.Err? {
        return Err(verified.error);
      }
      if verified.value.key.alias != held.key.alias {
        return Err(ReproveMismatch);
      }
      if verified.value.ring == held.ring && verified.value.revision <= held.revision {
        return Err(AliasAccountAlreadySet);
      }
      aliasOf := aliasOf[who := AliasInfo(held.key, verified.value.ring, verified.value.revision)];
      r := Ok(());
    }

    method CleanUpStaleAlias(env: Env, key: Key) returns (r: Result<(), Error>)
      modifies this
      ensures Commits(old(View()), View(), r, CleanUpSpec(cfg, env, old(View()), key))
    {
      if key !in accountOf {
        return Err(InvalidAccount);
      }
      var account := accountOf[key];
      if account !in aliasOf {
        return Err(InvalidAccount);
      }
      var info := aliasOf[account];
      if info.key.collection != key.collection {
        return Err(InconsistentState);
      }
      var stale := EnsureStale(cfg, env, info);
      if stale.Err? {
        return Err(stale.error);
      }
      accountOf := accountOf - {key};
      aliasOf := aliasOf - {account};
      sufficients := Dec(sufficients, account);
      r := Ok(());
    }

    /** Any sequence of calls on the live pallet keeps the index a bijection. */
    method Execute(steps: seq<(Env, Call)>, ghost others: map<Account, nat>)
      requires Inv(View(), others)
      modifies this
      ensures View() == Run(cfg, old(View()), steps) && Inv(View(), others)
    {
      var i := 0;
      RunPrefix(cfg, View(), steps, 0);
      while i < |steps|
        invariant 0 <= i <= |steps|
        invariant View() == Run(cfg, old(View()), steps[..i])
      {
        var (env, call) := steps[i];
        var r;
        match call {
          case Set(who, proof, collection, ring, revision, context, validAt) =>
            r := SetAliasAccount(env, who, proof, collection, ring, revision, context, validAt);
          case Unset(who) =>
            r := UnsetAliasAccount(who);
          case Reprove(who, proof, ring, revision, validAt) =>
            r := ReproveAliasAccount(env, who, proof, ring, revision, validAt);
          case CleanUp(key) =>
            r := CleanUpStaleAlias(env, key);
        }
        RunPrefix(cfg, old(View()), steps, i);
        i := i + 1;
      }
      assert steps[..i] == steps;
      RunKeeps(cfg, old(View()), others, steps);
    }
  }

  lemma {:induction false} RunPrefix(cfg: Config, s: State, steps: seq<(Env, Call)>, i: nat)
    requires i <= |steps|
    ensures i < |steps| ==> Run(cfg, s, steps[..i + 1]) == Apply(cfg, Run(cfg, s, steps[..i]), steps[i])
    decreases i
  {
    if i < |steps| && i > 0 {
      RunPrefix(cfg, Apply(cfg, s, steps[0]), steps[1..], i - 1);
      assert steps[..i + 1][1..] == steps[1..][..i];
      assert steps[..i][1..] == steps[1..][..i - 1];
    }
  }
}
