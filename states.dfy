/** The `State` record and the pure arithmetic of the vote-equity job: totals,
    rates, averages, the equity formula, the descending order and the rank
    numbering. The class in `Resources` is specified in terms of these. */
module States {
  import opened Numbers
  import opened Text

  /** One state as decoded: name, integer counts and its vote equity. */
  datatype State = State(name: string, population: int, electoralVotes: int, voteEquity: Num)

  /** The two integer counts a state carries. */
  datatype Count = Population | ElectoralVotes

  function CountOf(st: State, c: Count): int {
    match c
    case Population => st.population
    case ElectoralVotes => st.electoralVotes
  }

  /** The sum of one count over a sequence of states, first to last. */
  function Total(s: seq<State>, c: Count): int {
    if s == [] then 0 else Total(s[..|s| - 1], c) + CountOf(s[|s| - 1], c)
  }

  lemma TotalPrefix(s: seq<State>, i: nat, c: Count)
    requires i < |s|
    ensures Total(s[..i + 1], c) == Total(s[..i], c) + CountOf(s[i], c)
  {
    assert s[..i + 1][..i] == s[..i];
  }

  /** The total of a concatenation is the sum of the totals. */
  lemma {:induction false} TotalConcat(a: seq<State>, b: seq<State>, c: Count)
    ensures Total(a + b, c) == Total(a, c) + Total(b, c)
  {
    if b == [] {
      assert a + b == a;
    } else {
      assert (a + b)[..|a + b| - 1] == a + b[..|b| - 1];
      TotalConcat(a, b[..|b| - 1], c);
    }
  }

  /** Taking one state out of a sequence takes its count out of the total
      and the state out of the multiset. */
  lemma TotalRemove(b: seq<State>, j: nat, c: Count)
    requires j < |b|
    ensures Total(b, c) == Total(b[..j] + b[j + 1..], c) + CountOf(b[j], c)
    ensures multiset(b[..j] + b[j + 1..]) == multiset(b) - multiset{b[j]}
  {
    MultisetRemove(b, j);
    assert b == b[..j] + ([b[j]] + b[j + 1..]);
    TotalConcat(b[..j], [b[j]] + b[j + 1..], c);
    TotalConcat([b[j]], b[j + 1..], c);
    TotalConcat(b[..j], b[j + 1..], c);
    assert Total([b[j]], c) == CountOf(b[j], c) by {
      assert [b[j]][..0] == [];
    }
  }

  lemma MultisetRemove<T>(b: seq<T>, j: nat)
    requires j < |b|
    ensures multiset(b[..j] + b[j + 1..]) == multiset(b) - multiset{b[j]}
  {
    assert b == b[..j] + [b[j]] + b[j + 1..];
    assert multiset(b) == multiset(b[..j]) + multiset{b[j]} + multiset(b[j + 1..]);
  }

  /** Reordering the states does not change a total. */
  lemma {:induction false} TotalPermutation(a: seq<State>, b: seq<State>, c: Count)
    requires multiset(a) == multiset(b)
    ensures Total(a, c) == Total(b, c)
    decreases |a|
  {
    if a == [] {
      assert |b| == |multiset(b)| == 0;
    } else {
      assert a[0] in multiset(b);
      var j :| 0 <= j < |b| && b[j] == a[0];
      TotalRemove(a, 0, c);
      TotalRemove(b, j, c);
      TotalPermutation(a[..0] + a[1..], b[..j] + b[j + 1..], c);
    }
  }

  /** float32(n) / float32(d): how the job computes a rate or an average. */
  function Quotient(n: int, d: int): (r: Num)
    ensures r.Finite? <==> d != 0
    ensures r.Finite? ==> r.value * d as real == n as real
    ensures d == 0 ==> r == (if n == 0 then NotANumber else Infinite)
  {
    Div(FromInt(n), FromInt(d))
  }

  /** The sum of the rates `count / total` over a sequence of states. */
  function RateSum(s: seq<State>, c: Count, total: int): real
    requires total != 0
  {
    if s == [] then 0.0 else RateSum(s[..|s| - 1], c, total) + Quotient(CountOf(s[|s| - 1], c), total).value
  }

  /** The rates of all states sum to the total over the divisor; once the
      divisor is that total, they sum to one. */
  lemma RateSumIsTotalShare(s: seq<State>, c: Count, total: int)
    requires total != 0
    ensures RateSum(s, c, total) == Total(s, c) as real / total as real
    ensures total == Total(s, c) ==> RateSum(s, c, total) == 1.0
  {
    RateSumShare(s, c, total);
    DivSelf(total as real);
  }

  lemma {:induction false} RateSumShare(s: seq<State>, c: Count, total: int)
    requires total != 0
    ensures RateSum(s, c, total) == Total(s, c) as real / total as real
  {
    if s != [] {
      var s', t := s[..|s| - 1], total as real;
      var n := CountOf(s[|s| - 1], c);
      RateSumShare(s', c, total);
      assert RateSum(s, c, total) == RateSum(s', c, total) + Quotient(n, total).value;
      assert Quotient(n, total).value == n as real / t;
      assert Total(s, c) as real == Total(s', c) as real + n as real;
      SumOfShares(Total(s', c) as real, n as real, t);
    }
  }

  lemma DivSelf(x: real)
    requires x != 0.0
    ensures x / x == 1.0
  {
  }

  lemma SumOfShares(a: real, b: real, t: real)
    requires t != 0.0
    ensures a / t + b / t == (a + b) / t
  {
  }

  /** The vote equity of a state: its share of the electoral votes divided by
      its share of the population, as the float32 expression computes it. */
  function Equity(st: State, totalElectoralVotes: int, totalPopulation: int): (r: Num)
    ensures r.Finite? <==> totalElectoralVotes != 0 && st.population != 0
    ensures r.Finite? ==>
              r.value == (st.electoralVotes as real * totalPopulation as real)
                         / (st.population as real * totalElectoralVotes as real)
    ensures r.Finite? && totalPopulation != 0 ==>
              r.value == (st.electoralVotes as real / totalElectoralVotes as real)
                         / (st.population as real / totalPopulation as real)
    ensures r.Infinite? <==>
              st.electoralVotes != 0 && totalPopulation != 0
              && (totalElectoralVotes == 0 || st.population == 0)
  {
    RatioOfRatios(st.electoralVotes as real, totalElectoralVotes as real,
                  st.population as real, totalPopulation as real);
    Div(Quotient(st.electoralVotes, totalElectoralVotes), Quotient(st.population, totalPopulation))
  }

  lemma RatioOfRatios(a: real, b: real, c: real, d: real)
    ensures b != 0.0 && c != 0.0 && d != 0.0 ==> (a / b) / (c / d) == (a * d) / (c * b)
    ensures b != 0.0 && c != 0.0 && d == 0.0 ==> (a * d) / (c * b) == 0.0
  {
  }

  /** Every state with its equity filled in from the same totals; nothing
      else in any slot changes. */
  function WithEquities(s: seq<State>, totalElectoralVotes: int, totalPopulation: int): (r: seq<State>)
    ensures |r| == |s|
    ensures forall i :: 0 <= i < |s| ==>
              r[i].name == s[i].name && r[i].population == s[i].population
              && r[i].electoralVotes == s[i].electoralVotes
              && r[i].voteEquity == Equity(s[i], totalElectoralVotes, totalPopulation)
  {
    seq(|s|, i requires 0 <= i < |s| => s[i].(voteEquity := Equity(s[i], totalElectoralVotes, totalPopulation)))
  }

  /** Filling in equities leaves every total as it was. */
  lemma {:induction false} WithEquitiesKeepsTotals(s: seq<State>, totalElectoralVotes: int, totalPopulation: int, c: Count)
    ensures Total(WithEquities(s, totalElectoralVotes, totalPopulation), c) == Total(s, c)
  {
    if s != [] {
      var r := WithEquities(s, totalElectoralVotes, totalPopulation);
      var s' := s[..|s| - 1];
      assert r[..|r| - 1] == WithEquities(s', totalElectoralVotes, totalPopulation);
      WithEquitiesKeepsTotals(s', totalElectoralVotes, totalPopulation, c);
    }
  }

  /** No state's equity is NaN: the case in which the comparator is a strict
      weak order and a descending order exists. */
  predicate NoNaN(s: seq<State>) {
    forall i :: 0 <= i < |s| ==> !s[i].voteEquity.NotANumber?
  }

  /** Vote equity is non-increasing from first to last. */
  predicate SortedByEquity(s: seq<State>) {
    forall i, j :: 0 <= i < j < |s| ==> AtLeast(s[i].voteEquity, s[j].voteEquity)
  }

  /** Taking one state out of a descending sequence leaves it descending. */
  lemma SortedRemove(a: seq<State>, j: nat)
    requires j < |a|
    ensures NoNaN(a) ==> NoNaN(a[..j] + a[j + 1..])
    ensures SortedByEquity(a) ==> SortedByEquity(a[..j] + a[j + 1..])
  {
  }

  /** Dropping the first state of a descending sequence leaves it descending
      and takes that state out of the multiset. */
  lemma SortedTail(b: seq<State>)
    requires |b| > 0
    ensures SortedByEquity(b) ==> SortedByEquity(b[1..])
    ensures multiset(b[1..]) == multiset(b) - multiset{b[0]}
  {
    assert b == [b[0]] + b[1..];
  }

  /** In a descending sequence, every slot between two slots of equal equity
      holds that equity too. */
  lemma SortedTies(a: seq<State>, j: nat)
    requires j < |a| && NoNaN(a) && SortedByEquity(a)
    requires a[0].voteEquity == a[j].voteEquity
    ensures forall i :: 0 <= i <= j ==> a[i].voteEquity == a[0].voteEquity
  {
  }

  /** In a descending sequence the first equity is at least every other one
      that is not NaN. */
  lemma SortedFirstIsMax(s: seq<State>, k: nat)
    requires k < |s| && SortedByEquity(s) && !s[k].voteEquity.NotANumber?
    ensures AtLeast(s[0].voteEquity, s[k].voteEquity)
  {
  }

  /** Two descending orders of the same states agree slot by slot on the
      equity: sorting is unique up to the order of ties, so sorting again an
      already sorted sequence changes no equity's position. */
  lemma {:induction false} SortedPermutationsAgree(a: seq<State>, b: seq<State>)
    requires multiset(a) == multiset(b)
    requires NoNaN(a) && SortedByEquity(a) && SortedByEquity(b)
    ensures |a| == |b|
    ensures forall i :: 0 <= i < |a| ==> a[i].voteEquity == b[i].voteEquity
    decreases |a|
  {
    assert |a| == |multiset(a)| == |multiset(b)| == |b|;
    if a != [] {
      assert a[0] in multiset(b) && b[0] in multiset(a);
      var j :| 0 <= j < |a| && a[j] == b[0];
      var k :| 0 <= k < |b| && b[k] == a[0];
      SortedFirstIsMax(b, k);
      SortedFirstIsMax(a, j);
      OrderWithoutNaN(a[0].voteEquity, b[0].voteEquity, b[0].voteEquity);
      SortedTies(a, j);
      var a', b' := a[..j] + a[j + 1..], b[1..];
      MultisetRemove(a, j);
      SortedRemove(a, j);
      SortedTail(b);
      SortedPermutationsAgree(a', b');
      ShiftAgree(a, b, j);
    }
  }

  /** The last step of SortedPermutationsAgree: if `a` without slot j and `b`
      without its first slot agree, and slots 0 .. j of `a` all hold the
      equity of `b[0]`, then `a` and `b` agree. */
  lemma ShiftAgree(a: seq<State>, b: seq<State>, j: nat)
    requires |a| == |b| && j < |a|
    requires forall i :: 0 <= i <= j ==> a[i].voteEquity == b[0].voteEquity
    requires forall i :: 0 <= i < |a| - 1 ==>
               (a[..j] + a[j + 1..])[i].voteEquity == b[1..][i].voteEquity
    ensures forall i :: 0 <= i < |a| ==> a[i].voteEquity == b[i].voteEquity
  {
    var a', b' := a[..j] + a[j + 1..], b[1..];
    forall i | 0 < i < |a| ensures a[i].voteEquity == b[i].voteEquity {
      assert b[i] == b'[i - 1];
      if i <= j {
        assert a'[i - 1] == a[i - 1];
      } else {
        assert a'[i - 1] == a[i];
      }
    }
  }

  /** The rank printed for 0-based position `order` among `count` states. */
  function Rank(count: int, order: int): int {
    count - order
  }

  /** The position that carries a given rank: the inverse of `Rank`. */
  function Position(count: int, rank: int): int {
    count - rank
  }

  /** Ranks count down from `count` at the first position to 1 at the last,
      and positions 0 .. count-1 and ranks 1 .. count are in one-to-one
      correspondence. */
  lemma RankCountsDown(count: nat)
    ensures forall i :: 0 <= i < count ==> 1 <= Rank(count, i) <= count
    ensures count > 0 ==> Rank(count, 0) == count && Rank(count, count - 1) == 1
    ensures forall i, j :: 0 <= i < j < count ==> Rank(count, i) > Rank(count, j)
    ensures forall i :: 0 <= i < count ==> Position(count, Rank(count, i)) == i
    ensures forall r :: 1 <= r <= count ==> 0 <= Position(count, r) < count && Rank(count, Position(count, r)) == r
  {
  }

  /** State.ToString: the name, a comma and the formatted equity. The decimal
      formatting of a float32 is the parameter `format`. */
  function StateString(st: State, format: Num -> string): (r: string)
    ensures |r| > |st.name| && r[..|st.name|] == st.name && r[|st.name|] == ','
    ensures r[|st.name| + 1..] == format(st.voteEquity)
  {
    st.name + "," + format(st.voteEquity)
  }

  /** The text before the first comma of `s`, and the text after it. */
  function SplitAtComma(s: string): (string, string) {
    var k := IndexOf(s, ',');
    if k == |s| then (s, "") else (s[..k], s[k + 1..])
  }

  /** State.ToString loses nothing when the name holds no comma: the text up
      to the first comma is the name and the rest is the formatted equity. */
  lemma StateStringFields(st: State, format: Num -> string)
    requires ',' !in st.name
    ensures SplitAtComma(StateString(st, format)) == (st.name, format(st.voteEquity))
  {
    var r := StateString(st, format);
    assert r == st.name + ("," + format(st.voteEquity));
    IndexOfAfter(st.name, "," + format(st.voteEquity), ',');
  }
}
