/**
  When each call of the alias pallet succeeds and what a lookup answers, said of the ring roots, their
  times and the two indices alone: which revisions are honoured, for how long, and who is bound after.
*/
module AliasOutcomes {
  import opened Prelude
  import opened AliasAccounts

  /** The ring has a root, still retains the revision, and it is the newest one or at most the grace period old. */
  ghost predicate Honoured(cfg: Config, env: Env, collection: nat, ring: nat, revision: nat) {
    && (collection, ring) in env.rings
    && var facts := env.rings[(collection, ring)];
       && facts.latest.Some? && revision in facts.sourceTimes
       && (facts.latest.value == revision || env.now <= Min(U64_MAX, facts.sourceTimes[revision] + cfg.grace))
  }

  /** The newest root is a whole grace period old; a root whose time is unknown counts as the oldest. */
  ghost predicate NewestIsOld(cfg: Config, env: Env, collection: nat, ring: nat)
    requires (collection, ring) in env.rings && env.rings[(collection, ring)].latest.Some?
  {
    var facts := env.rings[(collection, ring)];
    var newest := if facts.latest.value in facts.sourceTimes then facts.sourceTimes[facts.latest.value] else 0;
    Min(U64_MAX, newest + cfg.grace) <= env.now
  }

  ghost predicate RootGone(env: Env, collection: nat, ring: nat) {
    (collection, ring) !in env.rings || env.rings[(collection, ring)].latest.None?
  }

  /** A proof that a call accepts now: of either people collection, at an honoured revision, inside its own time window. */
  ghost predicate Acceptable(cfg: Config, env: Env, proof: Proof, collection: nat, ring: nat, revision: nat, validAt: nat) {
    && (collection == cfg.people || collection == cfg.peopleLite)
    && Honoured(cfg, env, collection, ring, revision)
    && proof.genuine
    && validAt <= env.now <= Min(U64_MAX, validAt + cfg.proofWindow)
  }

  /** The lookup answers exactly for a bound account, in its own context, at an honoured revision. */
  lemma LookupExactly(cfg: Config, env: Env, s: State, account: Account, context: nat)
    ensures PersonhoodInfo(cfg, env, s, account, context).Some? <==>
      && account in s.aliasOf && s.aliasOf[account].key.context == context
      && Honoured(cfg, env, s.aliasOf[account].key.collection, s.aliasOf[account].ring, s.aliasOf[account].revision)
    ensures PersonhoodInfo(cfg, env, s, account, context).Some? ==>
      PersonhoodInfo(cfg, env, s, account, context).value == (s.aliasOf[account].key.collection, s.aliasOf[account].key.alias)
  {
  }

  /** The newest revision is honoured for ever, an older one until the grace period has passed. */
  lemma NewestIsHonoured(cfg: Config, env: Env, s: State, account: Account)
    requires account in s.aliasOf
    requires var info := s.aliasOf[account];
      && (info.key.collection, info.ring) in env.rings
      && var facts := env.rings[(info.key.collection, info.ring)];
         facts.latest == Some(info.revision) && info.revision in facts.sourceTimes
    ensures PersonhoodInfo(cfg, env, s, account, s.aliasOf[account].key.context).Some?
    ensures Inverse(s) ==> CleanUpSpec(cfg, env, s, s.aliasOf[account].key) == Err(AliasNotStale)
  {
  }

  // ---------------------------------------------------------------------------------------------
  // Setting
  // ---------------------------------------------------------------------------------------------

  /** The signer holds no other alias, and does not hold this one at this very ring and revision. */
  ghost predicate MayHold(s: State, who: Account, info: AliasInfo) {
    if info.key in s.accountOf && s.accountOf[info.key] == who then who !in s.aliasOf || s.aliasOf[who] != info
    else who !in s.aliasOf
  }

  /** `who` holds `info`, whoever held the alias before holds nothing, and nobody else is touched. */
  ghost predicate Rebound(s: State, t: State, who: Account, info: AliasInfo) {
    var former := if info.key in s.accountOf then Some(s.accountOf[info.key]) else None;
    && t.accountOf == s.accountOf[info.key := who]
    && who in t.aliasOf && t.aliasOf[who] == info
    && (former.Some? && former.value != who ==> former.value !in t.aliasOf)
    && forall a :: a != who && former != Some(a) ==> (a in t.aliasOf <==> a in s.aliasOf) && (a in s.aliasOf ==> t.aliasOf[a] == s.aliasOf[a])
  }

  lemma SetExactly(cfg: Config, env: Env, s: State, who: Account, proof: Proof, collection: nat, ring: nat,
                   revision: nat, context: nat, validAt: nat)
    ensures var info := AliasInfo(Key(collection, context, proof.alias), ring, revision);
      var r := SetSpec(cfg, env, s, who, proof, collection, ring, revision, context, validAt);
      && (r.Ok? <==> env.fee.Some? && env.burnOk && Acceptable(cfg, env, proof, collection, ring, revision, validAt) && MayHold(s, who, info))
      && (r.Ok? ==> Rebound(s, r.value, who, info))
  {
  }

  /** One reference goes from the former holder to the new one, or comes into being with a first binding. */
  lemma SetMovesReference(cfg: Config, env: Env, s: State, who: Account, proof: Proof, collection: nat, ring: nat,
                          revision: nat, context: nat, validAt: nat, a: Account)
    requires Inverse(s)
    requires SetSpec(cfg, env, s, who, proof, collection, ring, revision, context, validAt).Ok?
    ensures var t := SetSpec(cfg, env, s, who, proof, collection, ring, revision, context, validAt).value;
      var key := Key(collection, context, proof.alias);
      var gains := if a == who && who !in s.aliasOf then 1 else 0;
      var loses := if key in s.accountOf && s.accountOf[key] == a && a != who then 1 else 0;
      Sufficients(t.sufficients, a) == SatSub(Sufficients(s.sufficients, a), loses) + gains
  {
  }

  // ---------------------------------------------------------------------------------------------
  // Re-proving, unsetting, cleaning up
  // ---------------------------------------------------------------------------------------------

  lemma ReproveExactly(cfg: Config, env: Env, s: State, who: Account, proof: Proof, ring: nat, revision: nat, validAt: nat)
    ensures var r := ReproveSpec(cfg, env, s, who, proof, ring, revision, validAt);
      && (r.Ok? <==>
            && who in s.aliasOf && Acceptable(cfg, env, proof, s.aliasOf[who].key.collection, ring, revision, validAt)
            && proof.alias == s.aliasOf[who].key.alias
            && (ring != s.aliasOf[who].ring || revision > s.aliasOf[who].revision))
      && (r.Ok? ==>
            && r.value.accountOf == s.accountOf && r.value.sufficients == s.sufficients && r.value.aliasOf.Keys == s.aliasOf.Keys
            && r.value.aliasOf[who] == AliasInfo(s.aliasOf[who].key, ring, revision)
            && forall a :: a in s.aliasOf && a != who ==> r.value.aliasOf[a] == s.aliasOf[a])
  {
  }

  /** Both entries of the account go, and nothing else. */
  ghost predicate Released(s: State, t: State, account: Account)
    requires account in s.aliasOf
  {
    && account !in t.aliasOf && s.aliasOf[account].key !in t.accountOf
    && (forall a :: a != account ==> (a in t.aliasOf <==> a in s.aliasOf) && (a in s.aliasOf ==> t.aliasOf[a] == s.aliasOf[a]))
    && (forall k :: k != s.aliasOf[account].key ==> (k in t.accountOf <==> k in s.accountOf) && (k in s.accountOf ==> t.accountOf[k] == s.accountOf[k]))
    && (forall a :: Sufficients(t.sufficients, a) == if a == account then SatSub(Sufficients(s.sufficients, a), 1) else Sufficients(s.sufficients, a))
  }

  lemma UnsetExactly(s: State, who: Account)
    ensures UnsetSpec(s, who).Ok? <==> who in s.aliasOf
    ensures who in s.aliasOf ==> Released(s, UnsetSpec(s, who).value, who)
  {
  }

  /**
    A mapping can be cleaned up exactly when its ring has lost its root, or its revision is no longer
    honoured and the newest root is a grace period old.
  */
  lemma CleanUpExactly(cfg: Config, env: Env, s: State, key: Key)
    requires Inverse(s)
    ensures CleanUpSpec(cfg, env, s, key).Ok? <==>
      && key in s.accountOf
      && var info := s.aliasOf[s.accountOf[key]];
         || RootGone(env, key.collection, info.ring)
         || (!Honoured(cfg, env, key.collection, info.ring, info.revision) && NewestIsOld(cfg, env, key.collection, info.ring))
    ensures CleanUpSpec(cfg, env, s, key).Ok? ==> Released(s, CleanUpSpec(cfg, env, s, key).value, s.accountOf[key])
  {
  }

  /** Why a clean-up is refused. */
  lemma CleanUpRefusals(cfg: Config, env: Env, s: State, key: Key)
    requires Inverse(s) && CleanUpSpec(cfg, env, s, key).Err?
    ensures CleanUpSpec(cfg, env, s, key).error
         == if key !in s.accountOf then InvalidAccount
            else if Honoured(cfg, env, key.collection, s.aliasOf[s.accountOf[key]].ring, s.aliasOf[s.accountOf[key]].revision) then AliasNotStale
            else CleanupTooEarly
  {
  }

  /** Why a binding is refused, the first reason first. */
  lemma SetRefusals(cfg: Config, env: Env, s: State, who: Account, proof: Proof, collection: nat, ring: nat,
                    revision: nat, context: nat, validAt: nat)
    requires SetSpec(cfg, env, s, who, proof, collection, ring, revision, context, validAt).Err?
    ensures SetSpec(cfg, env, s, who, proof, collection, ring, revision, context, validAt).error
         == if env.fee.None? then AliasFeeUnset
            else if !(validAt <= env.now <= Min(U64_MAX, validAt + cfg.proofWindow)) then TimeOutOfRange
            else if collection != cfg.people && collection != cfg.peopleLite then InvalidCollection
            else if !Honoured(cfg, env, collection, ring, revision) then StaleRevision
            else if !proof.genuine then BadProof
            else if MayHold(s, who, AliasInfo(Key(collection, context, proof.alias), ring, revision)) then BurnFailed
            else if Key(collection, context, proof.alias) in s.accountOf && s.accountOf[Key(collection, context, proof.alias)] == who
                 then AliasAccountAlreadySet
            else AccountInUse
  {
  }

  lemma ReproveRefusals(cfg: Config, env: Env, s: State, who: Account, proof: Proof, ring: nat, revision: nat, validAt: nat)
    requires ReproveSpec(cfg, env, s, who, proof, ring, revision, validAt).Err?
    ensures ReproveSpec(cfg, env, s, who, proof, ring, revision, validAt).error
         == if !(validAt <= env.now <= Min(U64_MAX, validAt + cfg.proofWindow)) then TimeOutOfRange
            else if who !in s.aliasOf then InvalidAccount
            else if s.aliasOf[who].key.collection != cfg.people && s.aliasOf[who].key.collection != cfg.peopleLite then InvalidCollection
            else if !Honoured(cfg, env, s.aliasOf[who].key.collection, ring, revision) then StaleRevision
            else if !proof.genuine then BadProof
            else if proof.alias != s.aliasOf[who].key.alias then ReproveMismatch
            else AliasAccountAlreadySet
  {
  }
}
