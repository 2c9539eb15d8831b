/** `ResourceData`: the decoded states with the aggregates cached in fields,
    and the operations the batch job runs on it in place. */
module Resources {
  import opened Numbers
  import opened States
  import opened Text

  /** SortByEquity.Less: slot i goes before slot j when its equity is greater. */
  predicate Less(a: array<State>, i: int, j: int)
    requires 0 <= i < a.Length && 0 <= j < a.Length
    reads a
    ensures a[i].voteEquity.Finite? && a[j].voteEquity.Finite? ==>
              (Less(a, i, j) <==> a[i].voteEquity.value > a[j].voteEquity.value)
    ensures a[i].voteEquity.Infinite? ==> (Less(a, i, j) <==> a[j].voteEquity.Finite?)
    ensures a[j].voteEquity.Infinite? ==> !Less(a, i, j)
    ensures a[i].voteEquity.NotANumber? || a[j].voteEquity.NotANumber? ==> !Less(a, i, j)
  {
    Greater(a[i].voteEquity, a[j].voteEquity)
  }

  /** SortByEquity.Swap: exchanges two slots and touches no other. */
  method Swap(a: array<State>, i: int, j: int)
    requires 0 <= i < a.Length && 0 <= j < a.Length
    modifies a
    ensures a[i] == old(a[j]) && a[j] == old(a[i])
    ensures forall k :: 0 <= k < a.Length && k != i && k != j ==> a[k] == old(a[k])
    ensures multiset(a[..]) == multiset(old(a[..]))
  {
    a[i], a[j] := a[j], a[i];
  }

  /** sort.Sort over SortByEquity, by selection through Less and Swap: the
      result is a permutation, and it is in descending order of equity
      whenever no equity is NaN. */
  method SortDescending(a: array<State>)
    modifies a
    ensures multiset(a[..]) == multiset(old(a[..]))
    ensures NoNaN(old(a[..])) ==> SortedByEquity(a[..])
  {
    ghost var clean := NoNaN(a[..]);
    var i := 0;
    while i < a.Length
      invariant 0 <= i <= a.Length
      invariant multiset(a[..]) == multiset(old(a[..]))
      invariant clean ==> NoNaN(a[..])
      invariant clean ==> forall k, m :: 0 <= k < i && k < m < a.Length ==> AtLeast(a[k].voteEquity, a[m].voteEquity)
    {
      OrderWithoutNaN(a[i].voteEquity, a[i].voteEquity, a[i].voteEquity);
      var best, j := i, i + 1;
      ghost var entry := a[..];
      while j < a.Length
        invariant i <= best < j <= a.Length
        invariant a[..] == entry
        invariant clean ==> forall m :: i <= m < j ==> AtLeast(a[best].voteEquity, a[m].voteEquity)
      {
        if Less(a, j, best) {
          forall m | i <= m <= j
            ensures clean ==> AtLeast(a[j].voteEquity, a[m].voteEquity)
          {
            OrderWithoutNaN(a[j].voteEquity, a[best].voteEquity, a[m].voteEquity);
            OrderWithoutNaN(a[j].voteEquity, a[j].voteEquity, a[j].voteEquity);
          }
          best := j;
        } else {
          assert clean ==> !a[..][j].voteEquity.NotANumber? && !a[..][best].voteEquity.NotANumber?;
          OrderWithoutNaN(a[best].voteEquity, a[j].voteEquity, a[j].voteEquity);
        }
        j := j + 1;
      }
      ghost var before := a[..];
      Swap(a, i, best);
      assert forall m :: i < m < a.Length ==> a[m] == before[m] || a[m] == before[i];
      i := i + 1;
    }
  }

  /** One line of the report without its newline: the rank, a comma and the
      state's own string. */
  function RankedLine(count: int, order: int, st: State, format: Num -> string): string {
    Itoa(Rank(count, order)) + "," + StateString(st, format)
  }

  /** The report's lines, one per state in the given order. */
  function RankedLines(s: seq<State>, format: Num -> string): (r: seq<string>)
    ensures |r| == |s|
    ensures forall i :: 0 <= i < |s| ==> r[i] == RankedLine(|s|, i, s[i], format)
  {
    seq(|s|, i requires 0 <= i < |s| => RankedLine(|s|, i, s[i], format))
  }

  /** ResourceData.ToString as a value: every ranked line followed by a newline. */
  function Report(s: seq<State>, format: Num -> string): string {
    Join(RankedLines(s, format))
  }

  /** The report has exactly one line per state, in order, and line i is the
      rank `|s| - i`, a comma and the state's own string, provided no name and
      no formatted equity holds a newline. */
  lemma ReportLines(s: seq<State>, format: Num -> string)
    requires forall i :: 0 <= i < |s| ==> '\n' !in s[i].name
    requires forall x :: '\n' !in format(x)
    ensures |SplitLines(Report(s, format))| == |s|
    ensures forall i :: 0 <= i < |s| ==>
              SplitLines(Report(s, format))[i] == Itoa(Rank(|s|, i)) + "," + StateString(s[i], format)
  {
    var lines := RankedLines(s, format);
    forall i | 0 <= i < |lines| ensures '\n' !in lines[i] {
      assert lines[i] == Itoa(Rank(|s|, i)) + "," + (s[i].name + "," + format(s[i].voteEquity));
    }
    SplitJoin(lines);
  }

  class ResourceData {
    var states: array<State>
    var totalPopulation: int
    var totalElectoralVotes: int
    var averagePopulation: Num
    var averageElectoralVotes: Num

    /** The record json.Unmarshal produces: the decoded states, every other
        field at its zero value. */
    constructor (decoded: seq<State>)
      ensures fresh(states) && states[..] == decoded
      ensures totalPopulation == 0 && totalElectoralVotes == 0
      ensures averagePopulation == Finite(0.0) && averageElectoralVotes == Finite(0.0)
    {
      states := new State[|decoded|](i requires 0 <= i < |decoded| => decoded[i]);
      totalPopulation, totalElectoralVotes := 0, 0;
      averagePopulation, averageElectoralVotes := Finite(0.0), Finite(0.0);
    }

    /** The totals are the sums over the current states. */
    ghost predicate TotalsAgree()
      reads this, states
    {
      totalPopulation == Total(states[..], Population)
      && totalElectoralVotes == Total(states[..], ElectoralVotes)
    }

    /** The averages are the cached totals over the number of states. */
    ghost predicate AveragesAgree()
      reads this
    {
      averagePopulation == Quotient(totalPopulation, states.Length)
      && averageElectoralVotes == Quotient(totalElectoralVotes, states.Length)
    }

    /** LoadData after the file read and the decode: the four aggregate
        setters, run once on the freshly decoded record. */
    static method Load(decoded: seq<State>) returns (data: ResourceData)
      ensures fresh(data) && fresh(data.states) && data.states[..] == decoded
      ensures data.TotalsAgree() && data.AveragesAgree()
    {
      data := new ResourceData(decoded);
      data.SetTotalPopulation();
      data.SetTotalVotes();
      data.SetAveragePopulation();
      data.SetAverageElectoralVotes();
    }

    /** Adds every state's population to the total; it does not reset it, so
        a second call counts every state twice. */
    method SetTotalPopulation()
      modifies this`totalPopulation
      ensures totalPopulation == old(totalPopulation) + Total(states[..], Population)
    {
      var i := 0;
      while i < states.Length
        invariant 0 <= i <= states.Length
        invariant totalPopulation == old(totalPopulation) + Total(states[..i], Population)
      {
        TotalPrefix(states[..], i, Population);
        assert states[..][..i + 1] == states[..i + 1] && states[..][..i] == states[..i];
        totalPopulation := totalPopulation + states[i].population;
        i := i + 1;
      }
      assert states[..i] == states[..];
    }

    /** Adds every state's electoral votes to the total, without resetting it. */
    method SetTotalVotes()
      modifies this`totalElectoralVotes
      ensures totalElectoralVotes == old(totalElectoralVotes) + Total(states[..], ElectoralVotes)
    {
      var i := 0;
      while i < states.Length
        invariant 0 <= i <= states.Length
        invariant totalElectoralVotes == old(totalElectoralVotes) + Total(states[..i], ElectoralVotes)
      {
        TotalPrefix(states[..], i, ElectoralVotes);
        assert states[..][..i + 1] == states[..i + 1] && states[..][..i] == states[..i];
        totalElectoralVotes := totalElectoralVotes + states[i].electoralVotes;
        i := i + 1;
      }
      assert states[..i] == states[..];
    }

    /** The mean population; NaN or an infinity when there are no states. */
    method SetAveragePopulation()
      modifies this`averagePopulation
      ensures averagePopulation == Quotient(totalPopulation, states.Length)
      ensures states.Length > 0 ==>
                averagePopulation.Finite?
                && averagePopulation.value == totalPopulation as real / states.Length as real
      ensures states.Length == 0 ==> !averagePopulation.Finite?
    {
      averagePopulation := Quotient(totalPopulation, states.Length);
    }

    /** The mean number of electoral votes; NaN or an infinity when there are
        no states. */
    method SetAverageElectoralVotes()
      modifies this`averageElectoralVotes
      ensures averageElectoralVotes == Quotient(totalElectoralVotes, states.Length)
      ensures states.Length > 0 ==>
                averageElectoralVotes.Finite?
                && averageElectoralVotes.value == totalElectoralVotes as real / states.Length as real
      ensures states.Length == 0 ==> !averageElectoralVotes.Finite?
    {
      averageElectoralVotes := Quotient(totalElectoralVotes, states.Length);
    }

    /** A population as a share of the total population. */
    function PopulationRate(population: int): (rate: Num)
      reads this
      ensures rate.Finite? <==> totalPopulation != 0
      ensures rate.Finite? ==> rate.value * totalPopulation as real == population as real
    {
      Quotient(population, totalPopulation)
    }

    /** A number of electoral votes as a share of the total. */
    function ElectoralVoteRate(votes: int): (rate: Num)
      reads this
      ensures rate.Finite? <==> totalElectoralVotes != 0
      ensures rate.Finite? ==> rate.value * totalElectoralVotes as real == votes as real
    {
      Quotient(votes, totalElectoralVotes)
    }

    /** The equity of one state from the cached totals, and that state with the
        equity written into it. */
    method CalculateVoteEquity(state: State) returns (equity: Num, updated: State)
      ensures equity == Equity(state, totalElectoralVotes, totalPopulation)
      ensures updated == state.(voteEquity := equity)
    {
      equity := Div(ElectoralVoteRate(state.electoralVotes), PopulationRate(state.population));
      updated := state.(voteEquity := equity);
    }

    /** Fills in every state's equity in place; the order, the names and the
        counts stay as they were, and so do the totals. */
    method Calculate()
      modifies states
      ensures states[..] == WithEquities(old(states[..]), totalElectoralVotes, totalPopulation)
      ensures old(TotalsAgree()) ==> TotalsAgree()
    {
      var i := 0;
      while i < states.Length
        invariant 0 <= i <= states.Length
        invariant forall k :: 0 <= k < i ==>
                    states[k] == old(states[k]).(voteEquity := Equity(old(states[k]), totalElectoralVotes, totalPopulation))
        invariant forall k :: i <= k < states.Length ==> states[k] == old(states[k])
      {
        var state := states[i];
        var _, updated := CalculateVoteEquity(state);
        states[i] := updated;
        i := i + 1;
      }
      WithEquitiesKeepsTotals(old(states[..]), totalElectoralVotes, totalPopulation, Population);
      WithEquitiesKeepsTotals(old(states[..]), totalElectoralVotes, totalPopulation, ElectoralVotes);
    }

    /** Puts the states in descending order of equity (when none is NaN),
        keeping the same states and therefore the same totals. */
    method SortByVoteEquity()
      modifies states
      ensures multiset(states[..]) == multiset(old(states[..]))
      ensures NoNaN(old(states[..])) ==> SortedByEquity(states[..])
      ensures old(TotalsAgree()) ==> TotalsAgree()
    {
      SortDescending(states);
      TotalPermutation(old(states[..]), states[..], Population);
      TotalPermutation(old(states[..]), states[..], ElectoralVotes);
    }

    /** The rank of the state at 0-based position `order`. */
    function StateRank(order: int): (rank: int)
      reads this
      ensures 0 <= order < states.Length ==> 1 <= rank <= states.Length
      ensures order == 0 ==> rank == states.Length
      ensures order == states.Length - 1 ==> rank == 1
      ensures forall later :: order < later ==> Rank(states.Length, later) < rank
    {
      Rank(states.Length, order)
    }

    /** The ranked report over the current order of the states. */
    method ToString(format: Num -> string) returns (pretty: string)
      ensures pretty == Report(states[..], format)
    {
      pretty := "";
      ghost var lines := RankedLines(states[..], format);
      var i := 0;
      while i < states.Length
        invariant 0 <= i <= states.Length
        invariant pretty == Join(lines[..i])
      {
        var line := Itoa(StateRank(i)) + "," + StateString(states[i], format);
        assert line == lines[i];
        JoinSnoc(lines[..i], line);
        assert lines[..i + 1] == lines[..i] + [line];
        pretty := pretty + (line + "\n");
        i := i + 1;
      }
      assert lines[..i] == lines;
    }
  }

  /** The pipeline of main, without the printing and the file output: load,
      fill in the equities, sort, and render the report. */
  method Run(decoded: seq<State>, format: Num -> string) returns (data: ResourceData, report: string)
    ensures fresh(data) && fresh(data.states)
    ensures data.TotalsAgree() && data.AveragesAgree()
    ensures data.totalPopulation == Total(decoded, Population)
    ensures data.totalElectoralVotes == Total(decoded, ElectoralVotes)
    ensures multiset(data.states[..])
            == multiset(WithEquities(decoded, data.totalElectoralVotes, data.totalPopulation))
    ensures NoNaN(WithEquities(decoded, data.totalElectoralVotes, data.totalPopulation))
            ==> SortedByEquity(data.states[..])
    ensures report == Report(data.states[..], format)
  {
    data := ResourceData.Load(decoded);
    data.Calculate();
    data.SortByVoteEquity();
    report := data.ToString(format);
  }

  /** Two states A (population 100, 10 electoral votes) and B (200, 5): the
      totals are 300 and 15, A's equity is 2 and B's is 0.5, so the list is
      already descending and its report lines carry ranks 2 and 1. */
  lemma TwoStateScenario(format: Num -> string)
    ensures var s := [State("A", 100, 10, Finite(0.0)), State("B", 200, 5, Finite(0.0))];
            var r := WithEquities(s, 15, 300);
            && Total(s, Population) == 300 && Total(s, ElectoralVotes) == 15
            && r == [State("A", 100, 10, Finite(2.0)), State("B", 200, 5, Finite(0.5))]
            && SortedByEquity(r)
            && RankedLines(r, format) == ["2,A," + format(Finite(2.0)), "1,B," + format(Finite(0.5))]
  {
    var s := [State("A", 100, 10, Finite(0.0)), State("B", 200, 5, Finite(0.0))];
    assert s[..1][..0] == [] && s[..1] == [s[0]];
    var r := WithEquities(s, 15, 300);
    assert r[0].voteEquity == Finite(2.0) && r[1].voteEquity == Finite(0.5);
    var r' := [State("A", 100, 10, Finite(2.0)), State("B", 200, 5, Finite(0.5))];
    assert r == r';
    assert Itoa(2) == "2" && Itoa(1) == "1";
    var lines := RankedLines(r', format);
    assert lines[0] == "2,A," + format(Finite(2.0));
    assert lines[1] == "1,B," + format(Finite(0.5));
  }
}
