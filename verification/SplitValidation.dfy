/**
  `validate_split_params` of `pallets/coinage/src/lib.rs`: the checks every split, and every unload
  into several coins, must pass. The method below follows the accumulating loop with its `u32`
  overflow checks and the sort that looks for duplicates; `ValidSplit` says what is accepted.
*/
module SplitValidation {
  import opened Prelude
  import opened Powers
  import opened Denomination

  type Account = nat

  /** One value and the accounts that receive a coin of it. */
  datatype Group = Group(value: int, dests: seq<Account>)

  datatype Output = Output(dest: Account, value: int)

  datatype Invalidity =
    | EmptySplit | SplitExponentTooSmall | SplitExponentTooBig | SplitIntoNotSorted | TooManySplits
    | AddressAlreadyHasCoin | InternalError | InvalidSplit | DuplicateDestinationsInSplit

  function GroupOutputs(g: Group): (r: seq<Output>)
    ensures |r| == |g.dests|
  {
    seq(|g.dests|, i requires 0 <= i < |g.dests| => Output(g.dests[i], g.value))
  }

  /** The coins a split mints, in the order the call inserts them. */
  function Outputs(split: seq<Group>): seq<Output>
    decreases |split|
  {
    if split == [] then [] else Outputs(split[..|split| - 1]) + GroupOutputs(split[|split| - 1])
  }

  function Dests(split: seq<Group>): seq<Account>
    decreases |split|
  {
    if split == [] then [] else Dests(split[..|split| - 1]) + split[|split| - 1].dests
  }

  /** Units of a value already known to be in range. */
  function Units(d: Denom, v: int): nat {
    if v < d.minExp then 0 else Pow2(v - d.minExp)
  }

  /** The value of all outputs, counted in minimum coins without any width limit. */
  function TotalUnits(d: Denom, split: seq<Group>): nat
    decreases |split|
  {
    if split == [] then 0
    else
      var g := split[|split| - 1];
      TotalUnits(d, split[..|split| - 1]) + |g.dests| * Units(d, g.value)
  }

  predicate GroupsInRange(d: Denom, split: seq<Group>) {
    forall i :: 0 <= i < |split| ==> split[i].dests != [] && InRange(d, split[i].value)
  }

  predicate ValuesAscend(split: seq<Group>) {
    forall i, j :: 0 <= i < j < |split| ==> split[i].value < split[j].value
  }

  predicate NoneOccupied(occupied: set<Account>, dests: seq<Account>) {
    forall i :: 0 <= i < |dests| ==> dests[i] !in occupied
  }

  /** What a caller has to provide for a split to be accepted. */
  ghost predicate ValidSplit(d: Denom, maxOutputs: nat, occupied: set<Account>, expected: nat, split: seq<Group>) {
    && GroupsInRange(d, split)
    && ValuesAscend(split)
    && |Dests(split)| <= maxOutputs
    && TotalUnits(d, split) == expected
    && NoneOccupied(occupied, Dests(split))
    && Distinct(Dests(split))
  }

  // ---------------------------------------------------------------------------------------------
  // Sorting finds every duplicate
  // ---------------------------------------------------------------------------------------------

  predicate Sorted(s: seq<Account>) {
    forall i, j :: 0 <= i < j < |s| ==> s[i] <= s[j]
  }

  function Insert(x: Account, s: seq<Account>): (r: seq<Account>)
    requires Sorted(s)
    ensures Sorted(r) && multiset(r) == multiset(s) + multiset{x}
  {
    if s == [] then [x]
    else if x <= s[0] then
      PutFirst(x, s);
      [x] + s
    else
      var rest := Insert(x, s[1..]);
      PutBack(x, s, rest);
      [s[0]] + rest
  }

  lemma PutFirst(x: Account, s: seq<Account>)
    requires s != [] && Sorted(s) && x <= s[0]
    ensures Sorted([x] + s) && multiset([x] + s) == multiset(s) + multiset{x}
  {
  }

  lemma PutBack(x: Account, s: seq<Account>, rest: seq<Account>)
    requires s != [] && Sorted(s) && s[0] < x && Sorted(rest) && multiset(rest) == multiset(s[1..]) + multiset{x}
    ensures Sorted([s[0]] + rest) && multiset([s[0]] + rest) == multiset(s) + multiset{x}
  {
    assert s == [s[0]] + s[1..];
    forall i | 0 <= i < |rest|
      ensures s[0] <= rest[i]
    {
      assert rest[i] in multiset(rest);
    }
  }

  /** The account ids in ascending order. */
  function SortAccounts(s: seq<Account>): (r: seq<Account>)
    ensures Sorted(r) && multiset(r) == multiset(s)
  {
    if s == [] then []
    else
      assert s == [s[0]] + s[1..];
      Insert(s[0], SortAccounts(s[1..]))
  }

  predicate AdjacentDuplicate(s: seq<Account>) {
    exists i :: 0 <= i < |s| - 1 && s[i] == s[i + 1]
  }

  /** Any two equal entries of a sequence show up as multiplicity two, and conversely. */
  lemma {:induction false} DistinctAsMultiset(s: seq<Account>)
    ensures Distinct(s) <==> forall x :: multiset(s)[x] <= 1
  {
    if s != [] {
      var n := |s| - 1;
      var front, last := s[..n], s[n];
      assert s == front + [last];
      DistinctAsMultiset(front);
      if Distinct(s) {
        assert last !in front;
        forall x
          ensures multiset(s)[x] <= 1
        {
          assert multiset(s)[x] == multiset(front)[x] + multiset{last}[x];
        }
      } else if Distinct(front) {
        assert last in front;
        assert multiset(s)[last] == multiset(front)[last] + 1;
      } else {
        var x :| multiset(front)[x] > 1;
        assert multiset(s)[x] >= multiset(front)[x];
      }
    }
  }

  /** In a sorted sequence without equal neighbours all entries differ. */
  lemma {:induction false} SortedStrict(s: seq<Account>, i: nat, j: nat)
    requires Sorted(s) && !AdjacentDuplicate(s) && i < j < |s|
    ensures s[i] < s[j]
    decreases j
  {
    assert s[j - 1] != s[j - 1 + 1];
    if i < j - 1 {
      SortedStrict(s, i, j - 1);
    }
  }

  lemma DuplicatesAreAdjacent(s: seq<Account>)
    ensures AdjacentDuplicate(SortAccounts(s)) <==> !Distinct(s)
  {
    var t := SortAccounts(s);
    DistinctAsMultiset(s);
    DistinctAsMultiset(t);
    if !AdjacentDuplicate(t) {
      forall i, j | 0 <= i < j < |t|
        ensures t[i] != t[j]
      {
        SortedStrict(t, i, j);
      }
    }
  }

  // ---------------------------------------------------------------------------------------------
  // The loop
  // ---------------------------------------------------------------------------------------------

  /** Everything the loop has checked of the groups it has passed. */
  ghost predicate PrefixChecked(d: Denom, maxOutputs: nat, occupied: set<Account>, split: seq<Group>) {
    && GroupsInRange(d, split)
    && ValuesAscend(split)
    && |Dests(split)| <= maxOutputs
    && NoneOccupied(occupied, Dests(split))
  }

  ghost predicate GroupChecked(d: Denom, maxOutputs: nat, occupied: set<Account>, front: seq<Group>, g: Group) {
    && g.dests != []
    && InRange(d, g.value)
    && (front == [] || front[|front| - 1].value < g.value)
    && |Dests(front)| + |g.dests| <= maxOutputs
    && NoneOccupied(occupied, g.dests)
  }

  lemma ExtendChecked(d: Denom, maxOutputs: nat, occupied: set<Account>, front: seq<Group>, g: Group)
    requires PrefixChecked(d, maxOutputs, occupied, front)
    ensures PrefixChecked(d, maxOutputs, occupied, front + [g]) <==> GroupChecked(d, maxOutputs, occupied, front, g)
    ensures Dests(front + [g]) == Dests(front) + g.dests
    ensures TotalUnits(d, front + [g]) == TotalUnits(d, front) + |g.dests| * Units(d, g.value)
  {
    var all := front + [g];
    assert all[..|front|] == front;
    if GroupChecked(d, maxOutputs, occupied, front, g) {
      assert GroupsInRange(d, all) && ValuesAscend(all);
    } else if PrefixChecked(d, maxOutputs, occupied, all) {
      assert all[|front|] == g;
      DestsSuffix(occupied, Dests(front), g.dests);
    }
  }

  lemma DestsSuffix(occupied: set<Account>, a: seq<Account>, b: seq<Account>)
    requires NoneOccupied(occupied, a + b)
    ensures NoneOccupied(occupied, b)
  {
    forall i | 0 <= i < |b|
      ensures b[i] !in occupied
    {
      assert (a + b)[|a| + i] == b[i];
    }
  }

  /** A whole list that passes has passing prefixes, with no more outputs and no more units. */
  lemma {:induction false} PrefixOfValid(d: Denom, maxOutputs: nat, occupied: set<Account>, split: seq<Group>, n: nat)
    requires n <= |split| && PrefixChecked(d, maxOutputs, occupied, split)
    ensures PrefixChecked(d, maxOutputs, occupied, split[..n])
    ensures TotalUnits(d, split[..n]) <= TotalUnits(d, split)
    decreases |split| - n
  {
    if n == |split| {
      assert split[..n] == split;
    } else {
      PrefixOfValid(d, maxOutputs, occupied, split, n + 1);
      var front, g := split[..n], split[n];
      assert split[..n + 1] == front + [g];
      DropLast(d, maxOutputs, occupied, front, g);
    }
  }

  lemma DropLast(d: Denom, maxOutputs: nat, occupied: set<Account>, front: seq<Group>, g: Group)
    requires PrefixChecked(d, maxOutputs, occupied, front + [g])
    ensures PrefixChecked(d, maxOutputs, occupied, front)
    ensures TotalUnits(d, front) <= TotalUnits(d, front + [g])
  {
    var all := front + [g];
    assert all[..|front|] == front && all[|front|] == g;
    assert forall i :: 0 <= i < |front| ==> all[i] == front[i];
    assert forall i :: 0 <= i < |Dests(front)| ==> Dests(all)[i] == Dests(front)[i];
  }

  /** The check of one group, with the accumulators of the loop. */
  method CheckGroup(d: Denom, maxOutputs: nat, occupied: set<Account>, g: Group, previous: Option<int>, count: nat)
    returns (r: Result<nat, Invalidity>)
    requires maxOutputs <= U32_MAX && count <= maxOutputs
    ensures r.Ok? <==>
      && g.dests != [] && InRange(d, g.value)
      && (previous.None? || previous.value < g.value)
      && count + |g.dests| <= maxOutputs
      && NoneOccupied(occupied, g.dests)
    ensures r.Ok? ==> r.value == count + |g.dests|
  {
    if g.dests == [] {
      return Err(EmptySplit);
    }
    if g.value < d.minExp {
      return Err(SplitExponentTooSmall);
    }
    if g.value > d.maxExp {
      return Err(SplitExponentTooBig);
    }
    if previous.Some? && previous.value >= g.value {
      return Err(SplitIntoNotSorted);
    }
    if |g.dests| > U32_MAX || count + |g.dests| > U32_MAX {
      return Err(TooManySplits);
    }
    if count + |g.dests| > maxOutputs {
      return Err(TooManySplits);
    }
    if exists i :: 0 <= i < |g.dests| && g.dests[i] in occupied {
      return Err(AddressAlreadyHasCoin);
    }
    r := Ok(count + |g.dests|);
  }

  /** The accumulators: the last value seen, the outputs counted, the units summed. */
  datatype Acc = Acc(previous: Option<int>, count: nat, total: nat)

  ghost predicate AccMatches(d: Denom, maxOutputs: nat, occupied: set<Account>, front: seq<Group>, acc: Acc) {
    && acc.previous == (if front == [] then None else Some(front[|front| - 1].value))
    && PrefixChecked(d, maxOutputs, occupied, front)
    && acc.count == |Dests(front)|
    && acc.total == TotalUnits(d, front)
    && acc.total <= U32_MAX
  }

  /** One turn of the loop. */
  method AddGroup(d: Denom, maxOutputs: nat, occupied: set<Account>, ghost front: seq<Group>, g: Group, acc: Acc)
    returns (r: Result<Acc, Invalidity>)
    requires d.maxExp - d.minExp < 32 && maxOutputs <= U32_MAX
    requires AccMatches(d, maxOutputs, occupied, front, acc)
    ensures r.Ok? ==> AccMatches(d, maxOutputs, occupied, front + [g], r.value)
    ensures r.Err? ==>
      !PrefixChecked(d, maxOutputs, occupied, front + [g]) || TotalUnits(d, front + [g]) > U32_MAX
  {
    ExtendChecked(d, maxOutputs, occupied, front, g);
    var checked := CheckGroup(d, maxOutputs, occupied, g, acc.previous, acc.count);
    if checked.Err? {
      return Err(checked.error);
    }
    var unit := CoinUnit(d, g.value);
    if unit.None? {
      return Err(Invalidity.InternalError);
    }
    var added := |g.dests| * unit.value;
    if added > U32_MAX || acc.total + added > U32_MAX {
      return Err(InvalidSplit);
    }
    r := Ok(Acc(Some(g.value), checked.value, acc.total + added));
  }

  /**
    `validate_split_params`. The `u32` overflow checks reject nothing that is valid: a sum that
    leaves the word cannot equal an expected total inside it.
  */
  method ValidateSplitParams(d: Denom, maxOutputs: nat, occupied: set<Account>, expected: nat, split: seq<Group>)
    returns (r: Result<(), Invalidity>)
    requires d.maxExp - d.minExp < 32
    requires maxOutputs <= U32_MAX && expected <= U32_MAX
    ensures r.Ok? <==> ValidSplit(d, maxOutputs, occupied, expected, split)
  {
    var acc := Acc(None, 0, 0);
    var i := 0;
    while i < |split|
      invariant 0 <= i <= |split|
      invariant AccMatches(d, maxOutputs, occupied, split[..i], acc)
    {
      assert split[..i + 1] == split[..i] + [split[i]];
      var next := AddGroup(d, maxOutputs, occupied, split[..i], split[i], acc);
      if next.Err? {
        NotValidAt(d, maxOutputs, occupied, expected, split, i + 1);
        return Err(next.error);
      }
      acc := next.value;
      i := i + 1;
    }
    assert split[..i] == split;
    if acc.count > maxOutputs {
      return Err(TooManySplits);
    }
    if acc.total != expected {
      return Err(InvalidSplit);
    }
    var dests := Dests(split);
    DuplicatesAreAdjacent(dests);
    if AdjacentDuplicate(SortAccounts(dests)) {
      return Err(DuplicateDestinationsInSplit);
    }
    r := Ok(());
  }

  /** A prefix that fails a check, or already holds too many units, spoils the whole list. */
  lemma NotValidAt(d: Denom, maxOutputs: nat, occupied: set<Account>, expected: nat, split: seq<Group>, n: nat)
    requires n <= |split|
    requires !PrefixChecked(d, maxOutputs, occupied, split[..n]) || TotalUnits(d, split[..n]) > expected
    ensures !ValidSplit(d, maxOutputs, occupied, expected, split)
  {
    if ValidSplit(d, maxOutputs, occupied, expected, split) {
      PrefixOfValid(d, maxOutputs, occupied, split, n);
    }
  }
}
