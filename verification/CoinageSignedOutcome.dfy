/** What a signed unload of several recyclers does: which proofs belong to which input, and the whole payment. */
module CoinageSignedOutcome {
  import opened Prelude
  import opened Denomination
  import opened SplitValidation
  import opened Coinage
  import opened CoinageOutcomes
  import opened CoinageUnloadOutcomes
  import R = Recyclers
  import RO = RecyclerOutcomes

  /** Aliases of all inputs together. */
  function Count(inputs: seq<Input>): nat
    decreases |inputs|
  {
    if inputs == [] then 0 else Count(inputs[..|inputs| - 1]) + |inputs[|inputs| - 1].aliases|
  }

  /** The proofs of one input: those after the proofs of the inputs before it. */
  ghost predicate OwnProofs(inputs: seq<Input>, proofs: seq<R.Proof>, k: nat, own: seq<R.Proof>)
    requires k < |inputs|
  {
    && Count(inputs[..k]) + |inputs[k].aliases| <= |proofs|
    && own == proofs[Count(inputs[..k])..Count(inputs[..k]) + |inputs[k].aliases|]
  }

  ghost predicate InputGood(cfg: Config, s: State, inputs: seq<Input>, proofs: seq<R.Proof>, k: nat)
    requires k < |inputs|
  {
    exists own :: OwnProofs(inputs, proofs, k, own) && Takes(cfg, s, inputs[k], own)
  }

  ghost predicate Apart(a: Input, b: Input) {
    KeyOf(a) == KeyOf(b) ==> forall x :: x in a.aliases ==> x !in b.aliases
  }

  /** Every input is good in the state before, no two name one alias of one ring, and no proof is left over. */
  ghost predicate AllTaken(cfg: Config, s: State, inputs: seq<Input>, proofs: seq<R.Proof>) {
    && Count(inputs) == |proofs|
    && (forall k :: 0 <= k < |inputs| ==> InputGood(cfg, s, inputs, proofs, k))
    && (forall j, k :: 0 <= j < k < |inputs| ==> Apart(inputs[j], inputs[k]))
  }

  ghost predicate NamedBy(inputs: seq<Input>, key: R.RingKey, a: R.Alias) {
    exists k :: 0 <= k < |inputs| && KeyOf(inputs[k]) == key && a in inputs[k].aliases
  }

  /** Exactly the named aliases are marked in addition. */
  ghost predicate AllMarked(r: R.Storage, t: R.Storage, inputs: seq<Input>) {
    t == r.(marks := t.marks) && forall key, a :: RO.Marked(t, key, a) <==> RO.Marked(r, key, a) || NamedBy(inputs, key, a)
  }

  // ---------------------------------------------------------------------------------------------
  // One input more
  // ---------------------------------------------------------------------------------------------

  lemma NamedByOneMore(inputs: seq<Input>, n: nat, key: R.RingKey, a: R.Alias)
    requires |inputs| == n + 1
    ensures NamedBy(inputs, key, a) <==> NamedBy(inputs[..n], key, a) || (KeyOf(inputs[n]) == key && a in inputs[n].aliases)
  {
    var front := inputs[..n];
    assert forall k :: 0 <= k < n ==> front[k] == inputs[k];
    if NamedBy(front, key, a) {
      var k :| 0 <= k < n && KeyOf(front[k]) == key && a in front[k].aliases;
      assert KeyOf(inputs[k]) == key && a in inputs[k].aliases;
    }
    if NamedBy(inputs, key, a) {
      var k :| 0 <= k < |inputs| && KeyOf(inputs[k]) == key && a in inputs[k].aliases;
      if k < n {
        assert KeyOf(front[k]) == key && a in front[k].aliases;
      }
    }
  }

  /** After other inputs were taken, the last is good exactly if it was before and shares no alias with them. */
  lemma TakesAfter(cfg: Config, s: State, t: State, inputs: seq<Input>, n: nat, own: seq<R.Proof>)
    requires |inputs| == n + 1 && t == s.(rec := t.rec) && AllMarked(s.rec, t.rec, inputs[..n])
    ensures Takes(cfg, t, inputs[n], own) <==> Takes(cfg, s, inputs[n], own) && forall j :: 0 <= j < n ==> Apart(inputs[j], inputs[n])
  {
    var front, last := inputs[..n], inputs[n];
    assert forall j :: 0 <= j < n ==> front[j] == inputs[j];
    if Takes(cfg, t, last, own) {
      forall j | 0 <= j < n
        ensures Apart(inputs[j], last)
      {
        forall x | KeyOf(inputs[j]) == KeyOf(last) && x in inputs[j].aliases
          ensures x !in last.aliases
        {
          assert KeyOf(front[j]) == KeyOf(last) && x in front[j].aliases;
          assert NamedBy(front, KeyOf(last), x) && RO.Marked(t.rec, KeyOf(last), x);
        }
      }
      forall j | 0 <= j < |last.aliases|
        ensures !RO.Marked(s.rec, KeyOf(last), last.aliases[j])
      {
        assert !RO.Marked(t.rec, KeyOf(last), last.aliases[j]);
      }
    }
    if Takes(cfg, s, last, own) && forall j :: 0 <= j < n ==> Apart(inputs[j], last) {
      forall j | 0 <= j < |last.aliases|
        ensures !RO.Marked(t.rec, KeyOf(last), last.aliases[j])
      {
        assert !RO.Marked(s.rec, KeyOf(last), last.aliases[j]);
      }
    }
  }

  lemma OwnInFront(inputs: seq<Input>, proofs: seq<R.Proof>, n: nat, k: nat, own: seq<R.Proof>)
    requires |inputs| == n + 1 && k < n && Count(inputs) == |proofs|
    ensures OwnProofs(inputs, proofs, k, own) <==> OwnProofs(inputs[..n], proofs[..|proofs| - |inputs[n].aliases|], k, own)
  {
    CountMonotone(inputs[..n], k + 1);
    assert inputs[..n][..k] == inputs[..k] && inputs[..n][..k + 1][..k] == inputs[..k];
  }

  lemma {:induction false} CountMonotone(inputs: seq<Input>, k: nat)
    requires k <= |inputs|
    ensures Count(inputs[..k]) <= Count(inputs)
    decreases |inputs|
  {
    if k == |inputs| {
      assert inputs[..k] == inputs;
    } else {
      CountMonotone(inputs[..|inputs| - 1], k);
      assert inputs[..|inputs| - 1][..k] == inputs[..k];
    }
  }

  /** What the last input adds to the conditions. */
  lemma AllTakenOneMore(cfg: Config, s: State, inputs: seq<Input>, proofs: seq<R.Proof>, n: nat)
    requires |inputs| == n + 1 && |inputs[n].aliases| <= |proofs|
    ensures var own := |inputs[n].aliases|;
      AllTaken(cfg, s, inputs, proofs) <==>
        && AllTaken(cfg, s, inputs[..n], proofs[..|proofs| - own])
        && Takes(cfg, s, inputs[n], proofs[|proofs| - own..])
        && forall j :: 0 <= j < n ==> Apart(inputs[j], inputs[n])
  {
    var own := |inputs[n].aliases|;
    var front, before, back := inputs[..n], proofs[..|proofs| - own], proofs[|proofs| - own..];
    assert forall j :: 0 <= j < n ==> front[j] == inputs[j];
    if Count(inputs) == |proofs| {
      forall k | 0 <= k < n
        ensures InputGood(cfg, s, inputs, proofs, k) <==> InputGood(cfg, s, front, before, k)
      {
        forall mine
          ensures OwnProofs(inputs, proofs, k, mine) <==> OwnProofs(front, before, k, mine)
        {
          OwnInFront(inputs, proofs, n, k, mine);
        }
      }
      assert OwnProofs(inputs, proofs, n, back);
      assert InputGood(cfg, s, inputs, proofs, n) <==> Takes(cfg, s, inputs[n], back);
    }
  }

  /** `process_unload_inputs`: when it succeeds, and what is marked. */
  lemma {:induction false} AllTakenExactly(cfg: Config, s: State, inputs: seq<Input>, proofs: seq<R.Proof>)
    ensures ProcessInputs(cfg, s, inputs, proofs).Some? <==> AllTaken(cfg, s, inputs, proofs)
    ensures ProcessInputs(cfg, s, inputs, proofs).Some? ==>
      var t := ProcessInputs(cfg, s, inputs, proofs).value; t == s.(rec := t.rec) && AllMarked(s.rec, t.rec, inputs)
    decreases |inputs|
  {
    if inputs != [] {
      var n := |inputs| - 1;
      var own := |inputs[n].aliases|;
      if own <= |proofs| {
        var before, back := proofs[..|proofs| - own], proofs[|proofs| - own..];
        AllTakenExactly(cfg, s, inputs[..n], before);
        AllTakenOneMore(cfg, s, inputs, proofs, n);
        var t := ProcessInputs(cfg, s, inputs[..n], before);
        if t.Some? {
          TakesAfter(cfg, s, t.value, inputs, n, back);
          TakesExactly(cfg, t.value, inputs[n], back);
          MarksOneMore(cfg, s, t.value, inputs, n, back);
        }
      }
    }
  }

  lemma MarksOneMore(cfg: Config, s: State, t: State, inputs: seq<Input>, n: nat, back: seq<R.Proof>)
    requires |inputs| == n + 1 && t == s.(rec := t.rec) && AllMarked(s.rec, t.rec, inputs[..n])
    ensures Unload(cfg, t, inputs[n], back).Some? ==>
      var u := Unload(cfg, t, inputs[n], back).value; u == s.(rec := u.rec) && AllMarked(s.rec, u.rec, inputs)
  {
    TakesExactly(cfg, t, inputs[n], back);
    var r := Unload(cfg, t, inputs[n], back);
    if r.Some? {
      var u := r.value;
      forall key, a
        ensures RO.Marked(u.rec, key, a) <==> RO.Marked(s.rec, key, a) || NamedBy(inputs, key, a)
      {
        NamedByOneMore(inputs, n, key, a);
        assert RO.Marked(t.rec, key, a) <==> RO.Marked(s.rec, key, a) || NamedBy(inputs[..n], key, a);
      }
    }
  }

  // ---------------------------------------------------------------------------------------------
  // The payment
  // ---------------------------------------------------------------------------------------------

  ghost predicate Priced(cfg: Config, inputs: seq<Input>) {
    forall k :: 0 <= k < |inputs| ==> inputs[k].value in cfg.price && inputs[k].aliases != []
  }

  /** What all inputs are worth. */
  function WorthOf(cfg: Config, inputs: seq<Input>): nat
    decreases |inputs|
  {
    if inputs == [] then 0
    else
      var n := |inputs| - 1;
      WorthOf(cfg, inputs[..n]) + (if inputs[n].value in cfg.price then cfg.price[inputs[n].value] * |inputs[n].aliases| else 0)
  }

  /** The saturating total is the true one, cut at the largest balance. */
  lemma {:induction false} TotalExactly(cfg: Config, inputs: seq<Input>)
    ensures SignedTotal(cfg, inputs).Some? <==> Priced(cfg, inputs)
    ensures SignedTotal(cfg, inputs).Some? ==> SignedTotal(cfg, inputs).value == Min(cfg.maxBalance, WorthOf(cfg, inputs))
    decreases |inputs|
  {
    if inputs != [] {
      var n := |inputs| - 1;
      assert forall k :: 0 <= k < n ==> inputs[..n][k] == inputs[k];
      TotalExactly(cfg, inputs[..n]);
    }
  }

  /**
    All inputs are taken and their worth goes to the recipient, or nothing happens. The signer pays
    the fee apart from the hold.
  */
  lemma SignedOutcome(cfg: Config, env: Env, s: State, who: Account, inputs: seq<Input>, proofs: seq<R.Proof>, to: Account)
    requires Amount(cfg.denom, cfg.denom.minExp) > 0
    ensures var t := Transact(cfg, env, s, NoExtension(who), UnloadSigned(inputs, proofs, to));
      var total := Min(cfg.maxBalance, WorthOf(cfg, inputs));
      if inputs != [] && Priced(cfg, inputs) && AllTaken(cfg, s, inputs, proofs) && env.feeOk && Covers(env, s, total)
      then t == s.(rec := t.rec, held := t.held, flow := t.flow) && AllMarked(s.rec, t.rec, inputs) && Paid(s, t, to, total, 0)
      else t == s
  {
    TotalExactly(cfg, inputs);
    AllTakenExactly(cfg, s, inputs, proofs);
    if AllTaken(cfg, s, inputs, proofs) {
      AllOpen(cfg, s, inputs, proofs);
      if Priced(cfg, inputs) {
        PrepaidPaid(env, ProcessInputs(cfg, s, inputs, proofs).value, to, Min(cfg.maxBalance, WorthOf(cfg, inputs)));
      }
    }
  }

  lemma AllOpen(cfg: Config, s: State, inputs: seq<Input>, proofs: seq<R.Proof>)
    requires AllTaken(cfg, s, inputs, proofs)
    ensures forall input :: input in inputs ==> InputSpendable(cfg, s, input)
  {
    forall input | input in inputs
      ensures InputSpendable(cfg, s, input)
    {
      var k :| 0 <= k < |inputs| && inputs[k] == input;
      assert InputGood(cfg, s, inputs, proofs, k);
      OpenIsSpendable(cfg, s, input);
    }
  }
}
