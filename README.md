# Vote equity: a Dafny model

This project models the computational core of a small Go batch job, `src/main/main.go`. The job reads a list of US states, each with a population and a number of electoral votes, and works out each state's *vote equity*: its share of the electoral votes divided by its share of the population. It sorts the states by that value from highest to lowest and prints a ranked report.

The model has four modules.

- `Numbers` (`numbers.dfy`) models what a Go `float32` holds, without rounding. A value `Num` is an exact real (`Finite`), an infinity or NaN. `Div`, `Greater` and `AtLeast` follow IEEE 754 division and comparison on those values, so the model keeps the job's unguarded divisions by zero: a zero total or a zero population gives NaN or +Inf, as the Go code does, and it does not fail.
- `States` (`states.dfy`) holds the `State` record and the pure arithmetic:
  - the integer totals `Total`;
  - `Quotient`, the float32 quotient of two integers that every rate and average is;
  - the equity formula `Equity`;
  - the new sequence that `Calculate` produces, `WithEquities`;
  - the descending order `SortedByEquity`;
  - the rank numbering `Rank`;
  - `State.ToString` (`StateString`).
- `Text` (`text.dfy`) holds `strconv.Itoa` (`Itoa`, with the inverse `ParseInt`), newline-terminated text (`Join`) and its inverse `SplitLines`.
- `Resources` (`resources.dfy`) holds the class `ResourceData`. It has the job's own fields: `states: array<State>`, the integer totals and the two averages. Its methods change those fields in place, as the Go receiver methods do. The `SortByEquity` comparator and swap sit beside the class (`Less`, `Swap`, `SortDescending`), along with the report's specification (`RankedLines`, `Report`) and `Run`, which is `main`'s load–calculate–sort–render sequence.

 A float32 quotient is modelled as the exact quotient. For example, `Equity` is `(ev * totalPop) / (pop * totalEV)` whenever it is finite, and it is finite exactly when the electoral-vote total and the state's population are both non-zero. `ToString` takes the float formatting as a parameter `format: Num -> string`, because `strconv.FormatFloat` is not modelled.

The model follows the code where one might expect otherwise:
- An empty state list does not raise an error. The averages become NaN (0/0), or +Inf when a total is non-zero, and they are stored.
- The totals accumulate and are never reset, so calling a setter twice counts every state twice.
- The rank numbering runs from N for the first (highest-equity) state down to 1 for the last.

Sorting is only guaranteed when no equity is NaN. The comparator `s[i].VoteEquity > s[j].VoteEquity` is a strict weak order only when no equity is NaN, and `sort.Sort` promises an order only then. So `SortDescending` and `SortByVoteEquity` always return a permutation, and they return a descending one whenever no equity is NaN. With the non-negative counts the job reads, a NaN equity arises in three cases: a state with zero population and zero electoral votes; every state when the electoral-vote total is zero (0/0 in the vote share); and every state when the population total is zero (0/0 in the population share).

## Model

| member | source | states |
|---|---|---|
| Numbers.Div | src/main/main.go:86-87 | IEEE 754 division of exact values. The result is finite exactly when the dividend is finite and the divisor is an infinity or a non-zero finite value. It is NaN exactly for NaN operands, infinity over infinity, or 0/0. A finite result times the divisor gives back the dividend. |
| Numbers.OrderWithoutNaN | src/main/main.go:54-56 | The comparator's `>` on float32. Without NaN, `>=` is antisymmetric and transitive and is the negation of the reversed `>`. NaN compares false with everything. |
| States.Quotient | src/main/main.go:92-110 | `float32(n) / float32(d)` is finite exactly when d is non-zero, and then its value times d is n. A zero d gives NaN when n is 0 and an infinity otherwise. |
| States.RateSumIsTotalShare | src/main/main.go:102-110 | Summed over all states, the rates `count / total` equal the states' total divided by `total`. When `total` is that total, they sum to exactly 1. |
| States.Equity | src/main/main.go:78-90 | It is finite exactly when TotalElectoralVotes and Population are both non-zero. Its value is then `(ev * totalPop) / (pop * totalEV)`, which equals `(ev/totalEV)/(pop/totalPop)` when totalPop is non-zero. It is +Inf exactly when ev and totalPop are non-zero and one of totalEV and pop is zero. |
| States.TotalPermutation | src/main/main.go:66-76 | Two sequences with the same multiset of states have the same population total and the same electoral-vote total. |
| States.WithEquities | src/main/main.go:112-117 | Same length. Each slot keeps its name, population and electoral votes, and its equity becomes the equity of that same state. |
| States.WithEquitiesKeepsTotals | src/main/main.go:112-117 | Filling in the equities leaves both totals unchanged. |
| States.SortedPermutationsAgree | src/main/main.go:119-121 | Two descending orders of the same NaN-free states agree slot by slot on the equity. Sorting is unique up to the order of ties, so re-sorting a sorted list moves no equity. |
| States.RankCountsDown | src/main/main.go:138-141 | Over 0 <= i < N the rank `N - i` lies in [1, N]. rank(0) = N, rank(N-1) = 1, and the rank strictly decreases with i. `Position` is its two-sided inverse between positions 0..N-1 and ranks 1..N. |
| States.StateString | src/main/main.go:39-42 | `State.ToString` is the name, then a comma, then the formatted equity. |
| States.StateStringFields | src/main/main.go:39-42 | When the name holds no comma, splitting `State.ToString`'s text at its first comma gives back the name and the formatted equity. |
| Text.Itoa | src/main/main.go:125 | The decimal text of the rank is non-empty. It holds digits and at most a leading minus sign, so it has no comma and no newline. It is canonical: it starts with a minus sign exactly when the number is negative, and it has no leading zero (a text starting with `0` is `"0"`, and after a minus sign comes a non-zero digit). |
| Text.ItoaRoundTrip | src/main/main.go:125 | Parsing Itoa's output gives back the number. |
| Text.SplitJoin | src/main/main.go:123-128 | Splitting newline-terminated text back into lines gives the original lines, provided none of them held a newline. |
| Resources.Less | src/main/main.go:54-56 | Slot i goes before slot j exactly when its equity is greater: for finite values that is `>` on the reals, +Inf is greater than every finite value and no infinity, and a NaN on either side gives false. |
| Resources.Swap | src/main/main.go:50-52 | Exchanges slots i and j, leaves all other slots unchanged and keeps the multiset. |
| Resources.SortDescending | src/main/main.go:44-56 | The result is a permutation of the input. Its equities are non-increasing by index whenever no input equity is NaN. |
| Resources.ReportLines | src/main/main.go:123-128 | The report has exactly one line per state, in the current order. Line i is `Itoa(N - i)`, then a comma, then that state's own string. This holds when no name and no formatted value contains a newline. |
| Resources.TwoStateScenario | src/main/main.go:148-153 | Take A (population 100, 10 electoral votes) and B (population 200, 5 electoral votes). The totals are 300 and 15, and the equities are 2 and 0.5. The list is already descending, and its two report lines are "2,A," and "1,B,", each followed by the formatted equity. |
| Resources.ResourceData.constructor | src/main/main.go:24 | The decoded record: `States` is the decoded list, and every other field is zero. |
| Resources.ResourceData.Load | src/main/main.go:18-30 | After the four setters run on a fresh record, the totals equal the sums over the states and the averages equal the totals divided by the number of states. |
| Resources.ResourceData.SetTotalPopulation | src/main/main.go:66-70 | Adds the population sum to `TotalPopulation`. Starting from 0 this gives the sum, and a second call counts every state twice. |
| Resources.ResourceData.SetTotalVotes | src/main/main.go:72-76 | Adds the electoral-vote sum to `TotalElectoralVotes`, without resetting it first. |
| Resources.ResourceData.SetAveragePopulation | src/main/main.go:92-95 | Stores `TotalPopulation / len(States)`. It is finite and equal to the exact mean when there are states. It is not finite when there are none. |
| Resources.ResourceData.SetAverageElectoralVotes | src/main/main.go:97-100 | The same as SetAveragePopulation, for electoral votes. |
| Resources.ResourceData.PopulationRate | src/main/main.go:102-105 | The rate is finite exactly when TotalPopulation is non-zero. The rate times the total is then the population. |
| Resources.ResourceData.ElectoralVoteRate | src/main/main.go:107-110 | The rate is finite exactly when TotalElectoralVotes is non-zero. The rate times the total is then the given vote count. |
| Resources.ResourceData.CalculateVoteEquity | src/main/main.go:85-90 | The ratio of the two rates is the state's `Equity` under the cached totals. The state is returned with that value written into VoteEquity. |
| Resources.ResourceData.Calculate | src/main/main.go:112-117 | The array becomes `WithEquities` of its old contents: same length and order, and only VoteEquity changes. If the totals agreed with the states before, they still agree. |
| Resources.ResourceData.SortByVoteEquity | src/main/main.go:119-121 | The states become a permutation of the old ones. They are descending by equity when none is NaN, and the total invariant is kept. |
| Resources.ResourceData.StateRank | src/main/main.go:138-141 | For 0 <= order < N the rank is in [1, N]. The first position has rank N, the last has rank 1, and every later position has a smaller rank. |
| Resources.ResourceData.ToString | src/main/main.go:123-128 | The returned text is `Report` over the current order of the states: each ranked line followed by a newline. |
| Resources.Run | src/main/main.go:148-153 | Load, Calculate, SortByVoteEquity, then ToString. The totals are the input sums. The final states are a permutation of the input with its equities filled in, descending when no equity is NaN. The report renders that final order. |

## Left out

- `LoadData`'s file read and `os.Exit(1)` (src/main/main.go:18-23), `GetResourceFile` (143-146) and `ToJsonFile` with its swallowed write error (130-136) are file and process I/O. `Load` starts from the decoded state list.
- `encoding/json` decoding and encoding (src/main/main.go:24, 131) is a foreign library. The decoded list is the constructor's parameter, and the silently ignored decode error is not modelled.
- float32 rounding, overflow to infinity, signed zeros and -Inf are floating-point numerics. All finite values are exact reals, and infinities are not signed. That loses nothing with non-negative counts, but it would with negative counts.
- `strconv.FormatFloat` (src/main/main.go:40, 155-161) is floating-point formatting. It is the `format` parameter of `StateString`, `Report` and `ToString`.
- Go's `int` is 64 bits wide. The model's integers are unbounded, so a total that would wrap around in Go does not wrap here.
- `sort.Sort`'s algorithm (src/main/main.go:120) is library code. `SortDescending` reaches the same postcondition by selection through `Less` and `Swap`, so it may order ties differently from Go.
- `SortByEquity.Len` (src/main/main.go:46-48) is the array's `Length`, which the model reads directly.
- `main`'s printing of the report and of the two averages and their ratio (src/main/main.go:153-161) is console output.
