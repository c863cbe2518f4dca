/** Totals over the coins in circulation, and what minting the outputs of a split adds to them. */
module CoinLedger {
  import opened Denomination
  import opened SplitValidation
  import opened Sums

  datatype Coin = Coin(value: int, age: nat)

  type Coins = map<Account, Coin>

  ghost function Weights(w: Coin -> int, coins: Coins): map<Account, int> {
    map a | a in coins :: w(coins[a])
  }

  /** The total of a per-coin weight. */
  ghost function Tally(w: Coin -> int, coins: Coins): int {
    Sum(Weights(w, coins))
  }

  lemma TallyInsert(w: Coin -> int, coins: Coins, a: Account, c: Coin)
    requires a !in coins
    ensures Tally(w, coins[a := c]) == Tally(w, coins) + w(c)
  {
    assert Weights(w, coins[a := c]) == Weights(w, coins)[a := w(c)];
    SumInsert(Weights(w, coins), a, w(c));
  }

  lemma TallyRemove(w: Coin -> int, coins: Coins, a: Account)
    requires a in coins
    ensures Tally(w, coins) == Tally(w, coins - {a}) + w(coins[a])
  {
    TallyInsert(w, coins - {a}, a, coins[a]);
    assert (coins - {a})[a := coins[a]] == coins;
  }

  lemma TallyNonNegative(w: Coin -> int, coins: Coins)
    requires forall a :: a in coins ==> 0 <= w(coins[a])
    ensures 0 <= Tally(w, coins)
  {
    SumNonNegative(Weights(w, coins));
  }

  // ---------------------------------------------------------------------------------------------
  // Minting
  // ---------------------------------------------------------------------------------------------

  /** Insert one coin per output, in order, all of the same age. */
  function Mint(coins: Coins, outputs: seq<Output>, age: nat): Coins
    decreases |outputs|
  {
    if outputs == [] then coins
    else
      var n := |outputs| - 1;
      Mint(coins, outputs[..n], age)[outputs[n].dest := Coin(outputs[n].value, age)]
  }

  ghost function OutputTally(w: Coin -> int, outputs: seq<Output>, age: nat): int
    decreases |outputs|
  {
    if outputs == [] then 0
    else OutputTally(w, outputs[..|outputs| - 1], age) + w(Coin(outputs[|outputs| - 1].value, age))
  }

  ghost predicate FreshDests(coins: Coins, outputs: seq<Output>) {
    && (forall i :: 0 <= i < |outputs| ==> outputs[i].dest !in coins)
    && (forall i, j :: 0 <= i < j < |outputs| ==> outputs[i].dest != outputs[j].dest)
  }

  /** Which accounts hold a coin afterwards, and that no other coin was touched. */
  lemma {:induction false} MintContents(coins: Coins, outputs: seq<Output>, age: nat)
    requires FreshDests(coins, outputs)
    ensures forall a :: a in coins ==> a in Mint(coins, outputs, age) && Mint(coins, outputs, age)[a] == coins[a]
    ensures forall i :: 0 <= i < |outputs| ==>
      outputs[i].dest in Mint(coins, outputs, age) && Mint(coins, outputs, age)[outputs[i].dest] == Coin(outputs[i].value, age)
    ensures forall a :: a in Mint(coins, outputs, age) ==> a in coins || exists i :: 0 <= i < |outputs| && outputs[i].dest == a
    decreases |outputs|
  {
    if outputs != [] {
      var n := |outputs| - 1;
      var front := outputs[..n];
      assert forall i :: 0 <= i < n ==> front[i] == outputs[i];
      MintContents(coins, front, age);
      var m := Mint(coins, outputs, age);
      assert m == Mint(coins, front, age)[outputs[n].dest := Coin(outputs[n].value, age)];
      forall i | 0 <= i < |outputs|
        ensures outputs[i].dest in m && m[outputs[i].dest] == Coin(outputs[i].value, age)
      {
        if i < n {
          assert front[i] == outputs[i];
        }
      }
      forall a | a in m
        ensures a in coins || exists i :: 0 <= i < |outputs| && outputs[i].dest == a
      {
        if a !in coins && a != outputs[n].dest {
          var i :| 0 <= i < |front| && front[i].dest == a;
          assert outputs[i].dest == a;
        }
      }
    }
  }

  lemma {:induction false} MintTally(w: Coin -> int, coins: Coins, outputs: seq<Output>, age: nat)
    requires FreshDests(coins, outputs)
    ensures Tally(w, Mint(coins, outputs, age)) == Tally(w, coins) + OutputTally(w, outputs, age)
    decreases |outputs|
  {
    if outputs != [] {
      var n := |outputs| - 1;
      var front := outputs[..n];
      assert forall i :: 0 <= i < n ==> front[i] == outputs[i];
      MintTally(w, coins, front, age);
      MintContents(coins, front, age);
      var d := outputs[n].dest;
      assert d !in Mint(coins, front, age) by {
        assert forall i :: 0 <= i < n ==> front[i].dest != d;
      }
      TallyInsert(w, Mint(coins, front, age), d, Coin(outputs[n].value, age));
    }
  }

  // ---------------------------------------------------------------------------------------------
  // The outputs of a valid split
  // ---------------------------------------------------------------------------------------------

  /** Outputs list the destinations in order, with values from the groups. */
  lemma {:induction false} OutputsAreDests(split: seq<Group>)
    ensures |Outputs(split)| == |Dests(split)|
    ensures forall i :: 0 <= i < |Outputs(split)| ==> Outputs(split)[i].dest == Dests(split)[i]
    decreases |split|
  {
    if split != [] {
      OutputsAreDests(split[..|split| - 1]);
    }
  }

  lemma {:induction false} OutputValues(d: Denom, split: seq<Group>)
    requires GroupsInRange(d, split)
    ensures forall i :: 0 <= i < |Outputs(split)| ==> InRange(d, Outputs(split)[i].value)
    decreases |split|
  {
    if split != [] {
      var n := |split| - 1;
      assert forall i :: 0 <= i < n ==> split[..n][i] == split[i];
      OutputValues(d, split[..n]);
    }
  }

  lemma SplitIsFresh(d: Denom, maxOutputs: nat, coins: Coins, expected: nat, split: seq<Group>)
    requires ValidSplit(d, maxOutputs, coins.Keys, expected, split)
    ensures FreshDests(coins, Outputs(split))
  {
    OutputsAreDests(split);
  }

  lemma {:induction false} TallyAppend(w: Coin -> int, a: seq<Output>, b: seq<Output>, age: nat)
    ensures OutputTally(w, a + b, age) == OutputTally(w, a, age) + OutputTally(w, b, age)
    decreases |b|
  {
    if b == [] {
      assert a + b == a;
    } else {
      var n := |b| - 1;
      assert (a + b)[..|a + b| - 1] == a + b[..n];
      TallyAppend(w, a, b[..n], age);
    }
  }

  lemma {:induction false} UniformTally(w: Coin -> int, outputs: seq<Output>, age: nat, v: int)
    requires forall i :: 0 <= i < |outputs| ==> outputs[i].value == v
    ensures OutputTally(w, outputs, age) == |outputs| * w(Coin(v, age))
    decreases |outputs|
  {
    if outputs != [] {
      var n := |outputs| - 1;
      assert forall i :: 0 <= i < n ==> outputs[..n][i] == outputs[i];
      UniformTally(w, outputs[..n], age, v);
      assert outputs[n].value == v;
    }
  }

  /** A weight that is `scale` per minimum coin totals `scale` times the units of the split. */
  lemma {:induction false} SplitTally(w: Coin -> int, d: Denom, split: seq<Group>, age: nat, scale: int)
    requires GroupsInRange(d, split)
    requires forall v :: InRange(d, v) ==> w(Coin(v, age)) == Units(d, v) * scale
    ensures OutputTally(w, Outputs(split), age) == TotalUnits(d, split) * scale
    decreases |split|
  {
    if split != [] {
      var n := |split| - 1;
      var front, g := split[..n], split[n];
      assert forall i :: 0 <= i < n ==> front[i] == split[i];
      SplitTally(w, d, front, age, scale);
      GroupTally(w, d, Outputs(front), g, age, scale);
      GroupProduct(TotalUnits(d, front), |g.dests|, Units(d, g.value), scale);
    }
  }

  lemma GroupTally(w: Coin -> int, d: Denom, front: seq<Output>, g: Group, age: nat, scale: int)
    requires InRange(d, g.value) && w(Coin(g.value, age)) == Units(d, g.value) * scale
    ensures OutputTally(w, front + GroupOutputs(g), age) == OutputTally(w, front, age) + |g.dests| * (Units(d, g.value) * scale)
  {
    TallyAppend(w, front, GroupOutputs(g), age);
    UniformTally(w, GroupOutputs(g), age, g.value);
  }

  lemma GroupProduct(t: int, n: int, u: int, scale: int)
    ensures t * scale + n * (u * scale) == (t + n * u) * scale
  {
  }
}
