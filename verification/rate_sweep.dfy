/** The rate sweep of the comparison driver, and the summary of its rows.

    What each benchmark run does is a parameter: a function from the run's place
    in the sweep to its result.
  */
module RateSweep {

  datatype Experiment = Sparse | Dense | Broadcast

  datatype Group = Group(experiment: Experiment, total: int, active: int, rates: seq<real>)

  /** Which run: trial, group, rate, and place in the order of that trial. */
  datatype Turn = Turn(trial: nat, group: nat, rate: nat, place: nat)

  datatype Written = Nothing | Written(valid: bool)

  /** The exit status of a run, and what it wrote to its output file. */
  datatype Result = Result(succeeded: bool, written: Written)

  type Results = Turn -> Result

  /** The output file of a run. Runs that differ only in their place share it. */
  datatype Name = Name(trial: nat, experiment: Experiment, total: int, active: int, rate: real, server: string)

  /** The files of the result directory: whether their row is valid. */
  type Files = map<Name, bool>

  /** What the driver makes of a run. */
  datatype Outcome = Failed | Measured(valid: bool)

  /** The outcome of the runs made in one trial of a group, by implementation
      and number of the rate. */
  type Attempts = map<(string, nat), Outcome>

  /** An implementation in a tier: what the summary reports about. */
  datatype Key = Key(experiment: Experiment, server: string, total: int)

  datatype Row = Row(key: Key, rate: real, valid: bool)

  // --------------------------------------------------------------- the groups

  datatype Options = Options(
    selected: set<Experiment>,
    sparseTiers: seq<int>, sparseActive: seq<int>, sparseRate: real,
    denseTiers: seq<int>, denseRates: seq<real>,
    broadcastTiers: seq<int>, broadcastRates: seq<real>)

  function Insert(rate: real, rates: seq<real>): seq<real> {
    if rates == [] || rate <= rates[0] then [rate] + rates else [rates[0]] + Insert(rate, rates[1..])
  }

  function Sorted(rates: seq<real>): seq<real> {
    if rates == [] then [] else Insert(rates[0], Sorted(rates[1..]))
  }

  /** The groups of one sparse tier: the active counts that fit in it. */
  function FittingGroups(total: int, active: seq<int>, rate: real): seq<Group> {
    if active == [] then []
    else
      var last := active[|active| - 1];
      FittingGroups(total, active[..|active| - 1], rate)
      + (if last <= total then [Group(Sparse, total, last, [rate])] else [])
  }

  function SparseGroups(tiers: seq<int>, active: seq<int>, rate: real): seq<Group> {
    if tiers == [] then []
    else SparseGroups(tiers[..|tiers| - 1], active, rate) + FittingGroups(tiers[|tiers| - 1], active, rate)
  }

  /** One group per tier, all sweeping the sorted rates. */
  function TierGroups(e: Experiment, tiers: seq<int>, rates: seq<real>): (groups: seq<Group>)
    ensures |groups| == |tiers|
    ensures forall k :: 0 <= k < |tiers| ==> groups[k] == Group(e, tiers[k], tiers[k], Sorted(rates))
  {
    seq(|tiers|, k requires 0 <= k < |tiers| => Group(e, tiers[k], tiers[k], Sorted(rates)))
  }

  function GroupsOf(o: Options): seq<Group> {
    (if Sparse in o.selected then SparseGroups(o.sparseTiers, o.sparseActive, o.sparseRate) else [])
    + (if Dense in o.selected then TierGroups(Dense, o.denseTiers, o.denseRates) else [])
    + (if Broadcast in o.selected then TierGroups(Broadcast, o.broadcastTiers, o.broadcastRates) else [])
  }

  lemma {:induction false} FittingGroupsAre(total: int, active: seq<int>, rate: real, g: Group)
    ensures g in FittingGroups(total, active, rate) <==>
      g == Group(Sparse, total, g.active, [rate]) && g.active in active && g.active <= total
  {
    if active != [] {
      var n := |active| - 1;
      FittingGroupsAre(total, active[..n], rate, g);
      assert active == active[..n] + [active[n]];
    }
  }

  lemma {:induction false} SparseGroupsAre(tiers: seq<int>, active: seq<int>, rate: real, g: Group)
    ensures g in SparseGroups(tiers, active, rate) <==>
      g == Group(Sparse, g.total, g.active, [rate]) && g.total in tiers && g.active in active && g.active <= g.total
  {
    if tiers != [] {
      var n := |tiers| - 1;
      SparseGroupsAre(tiers[..n], active, rate, g);
      FittingGroupsAre(tiers[n], active, rate, g);
      assert tiers == tiers[..n] + [tiers[n]];
    }
  }

  /** The sparse groups are the listed pairs that fit; then comes one group for
      each listed dense tier and one for each broadcast tier, in order. */
  method ExperimentGroups(o: Options) returns (groups: seq<Group>)
    ensures groups == GroupsOf(o)
    ensures forall g :: g in groups && g.experiment == Sparse <==>
      && Sparse in o.selected && g == Group(Sparse, g.total, g.active, [o.sparseRate])
      && g.total in o.sparseTiers && g.active in o.sparseActive && g.active <= g.total
  {
    hide SparseGroups, TierGroups;
    groups := [];
    if Sparse in o.selected {
      groups := PairTiers(o.sparseTiers, o.sparseActive, o.sparseRate);
    }
    if Dense in o.selected {
      groups := AddTiers(groups, Dense, o.denseTiers, o.denseRates);
    }
    if Broadcast in o.selected {
      groups := AddTiers(groups, Broadcast, o.broadcastTiers, o.broadcastRates);
    }
    GroupsAre(o);
  }

  /** For each tier in turn its active counts in turn; then the other tiers. */
  lemma GroupsInOrder()
    ensures GroupsOf(Options({Sparse, Dense, Broadcast}, [10, 20], [5, 15], 1.0, [30], [3.0, 2.0], [40], [4.0]))
         == [Group(Sparse, 10, 5, [1.0]), Group(Sparse, 20, 5, [1.0]), Group(Sparse, 20, 15, [1.0]),
             Group(Dense, 30, 30, [2.0, 3.0]), Group(Broadcast, 40, 40, [4.0])]
  {
    hide SparseGroups, Sorted;
    SparseInOrder();
    SortedInOrder();
  }

  lemma SparseInOrder()
    ensures SparseGroups([10, 20], [5, 15], 1.0)
         == [Group(Sparse, 10, 5, [1.0]), Group(Sparse, 20, 5, [1.0]), Group(Sparse, 20, 15, [1.0])]
  {
    hide FittingGroups;
    FittingInOrder();
    assert [10, 20][..1] == [10] && [10][..0] == [];
    assert SparseGroups([10], [5, 15], 1.0) == [Group(Sparse, 10, 5, [1.0])];
  }

  lemma FittingInOrder()
    ensures FittingGroups(10, [5, 15], 1.0) == [Group(Sparse, 10, 5, [1.0])]
    ensures FittingGroups(20, [5, 15], 1.0) == [Group(Sparse, 20, 5, [1.0]), Group(Sparse, 20, 15, [1.0])]
  {
    assert [5, 15][..1] == [5] && [5][..0] == [];
    assert FittingGroups(10, [5], 1.0) == [Group(Sparse, 10, 5, [1.0])];
    assert FittingGroups(20, [5], 1.0) == [Group(Sparse, 20, 5, [1.0])];
  }

  lemma SortedInOrder()
    ensures Sorted([3.0, 2.0]) == [2.0, 3.0] && Sorted([4.0]) == [4.0]
  {
    assert [3.0, 2.0][1..] == [2.0] && [2.0][1..] == [] && [4.0][1..] == [];
    assert Sorted([2.0]) == [2.0] && Insert(3.0, [2.0]) == [2.0, 3.0];
  }

  /** Every sparse tier with every active count that fits in it. */
  method PairTiers(tiers: seq<int>, active: seq<int>, rate: real) returns (groups: seq<Group>)
    ensures groups == SparseGroups(tiers, active, rate)
  {
    groups := [];
    for i := 0 to |tiers|
      invariant groups == SparseGroups(tiers[..i], active, rate)
    {
      assert tiers[..i + 1][..i] == tiers[..i];
      ghost var before := groups;
      for j := 0 to |active|
        invariant groups == before + FittingGroups(tiers[i], active[..j], rate)
      {
        assert active[..j + 1][..j] == active[..j];
        if active[j] <= tiers[i] {
          groups := groups + [Group(Sparse, tiers[i], active[j], [rate])];
        }
      }
      assert active[..|active|] == active;
    }
    assert tiers[..|tiers|] == tiers;
  }

  lemma GroupsAre(o: Options)
    ensures forall g :: g in GroupsOf(o) && g.experiment == Sparse <==>
      && Sparse in o.selected && g == Group(Sparse, g.total, g.active, [o.sparseRate])
      && g.total in o.sparseTiers && g.active in o.sparseActive && g.active <= g.total
  {
    forall g ensures g in SparseGroups(o.sparseTiers, o.sparseActive, o.sparseRate) <==>
      && g == Group(Sparse, g.total, g.active, [o.sparseRate])
      && g.total in o.sparseTiers && g.active in o.sparseActive && g.active <= g.total
    {
      SparseGroupsAre(o.sparseTiers, o.sparseActive, o.sparseRate, g);
    }
  }

  /** Exactly one group per listed tier, in order. */
  method AddTiers(before: seq<Group>, e: Experiment, tiers: seq<int>, given: seq<real>) returns (groups: seq<Group>)
    ensures groups == before + TierGroups(e, tiers, given)
  {
    var rates := Sorted(given);
    groups := before;
    for i := 0 to |tiers|
      invariant groups == before + TierGroups(e, tiers, given)[..i]
    {
      groups := groups + [Group(e, tiers[i], tiers[i], rates)];
    }
  }

  // ----------------------------------------------------------------- the sweep

  function Elements(s: seq<string>): set<string> {
    set x | x in s
  }

  function Reversed(s: seq<string>): (r: seq<string>)
    ensures |r| == |s| && forall i :: 0 <= i < |s| ==> r[i] == s[|s| - 1 - i]
  {
    seq(|s|, i requires 0 <= i < |s| => s[|s| - 1 - i])
  }

  /** Odd trials take the implementations as given, even ones backwards. */
  function ExecutionOrder(implementations: seq<string>, trial: nat): (order: seq<string>)
    ensures |order| == |implementations|
  {
    if trial % 2 == 1 then implementations else Reversed(implementations)
  }

  function NameOf(g: Group, trial: nat, k: nat, server: string): Name
    requires k < |g.rates|
  {
    Name(trial, g.experiment, g.total, g.active, g.rates[k], server)
  }

  /** Where the sweep of a group stands: the files to read rows from, the
      result directory, who is still active, and what was attempted. */
  datatype Stand = Stand(paths: seq<Name>, files: Files, active: set<string>, attempts: Attempts)

  /** The result directory after a run. */
  function Output(files: Files, name: Name, r: Result): Files {
    if r.written.Written? then files[name := r.written.valid] else files
  }

  /** A run counts if it exits well and its file exists, whoever wrote it. */
  function Seen(files: Files, name: Name, r: Result): Outcome {
    if !r.succeeded || name !in files then Failed else Measured(files[name])
  }

  function TakeTurn(g: Group, turn: Turn, server: string, s: Stand, results: Results): Stand
    requires turn.rate < |g.rates|
  {
    if server !in s.active then s
    else
      var name := NameOf(g, turn.trial, turn.rate, server);
      var files := Output(s.files, name, results(turn));
      var outcome := Seen(files, name, results(turn));
      Stand(if outcome.Measured? then s.paths + [name] else s.paths, files,
            if outcome == Measured(true) then s.active else s.active - {server},
            s.attempts[(server, turn.rate) := outcome])
  }

  /** After the first `n` turns at rate `k`. */
  function AfterTurns(g: Group, trial: nat, group: nat, k: nat, order: seq<string>, n: nat, s: Stand,
                      results: Results): Stand
    requires k < |g.rates| && n <= |order|
  {
    if n == 0 then s
    else TakeTurn(g, Turn(trial, group, k, n - 1), order[n - 1],
                  AfterTurns(g, trial, group, k, order, n - 1, s, results), results)
  }

  /** After the first `k` rates. */
  function AfterRates(implementations: seq<string>, g: Group, trial: nat, group: nat, k: nat, files: Files,
                      results: Results): Stand
    requires k <= |g.rates|
  {
    if k == 0 then Stand([], files, Elements(implementations), map[])
    else
      var order := ExecutionOrder(implementations, trial);
      AfterTurns(g, trial, group, k - 1, order, |order|,
                 AfterRates(implementations, g, trial, group, k - 1, files, results), results)
  }

  function AfterGroup(implementations: seq<string>, g: Group, trial: nat, group: nat, files: Files,
                      results: Results): Stand {
    AfterRates(implementations, g, trial, group, |g.rates|, files, results)
  }

  /** One group in one trial. An implementation is dropped at the first rate
      at which its run fails or is invalid. */
  method SweepGroup(implementations: seq<string>, g: Group, trial: nat, group: nat, directory: Files, results: Results)
    returns (paths: seq<Name>, files: Files, ghost attempts: Attempts)
    ensures paths == AfterGroup(implementations, g, trial, group, directory, results).paths
    ensures files == AfterGroup(implementations, g, trial, group, directory, results).files
    ensures attempts == AfterGroup(implementations, g, trial, group, directory, results).attempts
  {
    hide Elements;
    var active := Elements(implementations);
    paths, files, attempts := [], directory, map[];
    for k := 0 to |g.rates|
      invariant Stand(paths, files, active, attempts)
             == AfterRates(implementations, g, trial, group, k, directory, results)
    {
      var order := ExecutionOrder(implementations, trial);
      ghost var s := Stand(paths, files, active, attempts);
      for n := 0 to |order|
        invariant Stand(paths, files, active, attempts) == AfterTurns(g, trial, group, k, order, n, s, results)
      {
        var server := order[n];
        if server !in active {
          continue;
        }
        var name, r := NameOf(g, trial, k, server), results(Turn(trial, group, k, n));
        files := Output(files, name, r);
        attempts := attempts[(server, k) := Seen(files, name, r)];
        if !r.succeeded || name !in files {
          active := active - {server};
          continue;
        }
        paths := paths + [name];
        if !files[name] {
          active := active - {server};
        }
      }
    }
  }

  /** The whole sweep so far: the files to read rows from, the directory, and
      the attempts of every group in every trial, the last perhaps under way. */
  datatype Record = Record(paths: seq<Name>, files: Files, logs: seq<seq<Attempts>>)

  /** After the first `n` groups of a trial. */
  function AfterGroups(implementations: seq<string>, groups: seq<Group>, trial: nat, n: nat, before: Record,
                       results: Results): (r: Record)
    requires n <= |groups|
    ensures |r.logs| == |before.logs| + 1 && |r.logs[|before.logs|]| == n
    ensures r.logs[..|before.logs|] == before.logs
  {
    if n == 0 then Record(before.paths, before.files, before.logs + [[]])
    else
      var r := AfterGroups(implementations, groups, trial, n - 1, before, results);
      var s := AfterGroup(implementations, groups[n - 1], trial, n - 1, r.files, results);
      Record(r.paths + s.paths, s.files, before.logs + [r.logs[|before.logs|] + [s.attempts]])
  }

  function AfterTrials(implementations: seq<string>, groups: seq<Group>, runs: nat, results: Results): (r: Record)
    ensures |r.logs| == runs
  {
    if runs == 0 then Record([], map[], [])
    else
      var before := AfterTrials(implementations, groups, runs - 1, results);
      AfterGroups(implementations, groups, runs, |groups|, before, results)
  }

  /** The row that is read from a file in the end. */
  function RowOf(n: Name, files: Files): Row {
    Row(Key(n.experiment, n.server, n.total), n.rate, n in files && files[n])
  }

  /** combine_csvs: the rows of the listed files. */
  function Combine(paths: seq<Name>, files: Files): (rows: seq<Row>)
    ensures |rows| == |paths| && forall i :: 0 <= i < |paths| ==> rows[i] == RowOf(paths[i], files)
  {
    seq(|paths|, i requires 0 <= i < |paths| => RowOf(paths[i], files))
  }

  function RowsOf(implementations: seq<string>, groups: seq<Group>, runs: nat, results: Results): seq<Row> {
    var r := AfterTrials(implementations, groups, runs, results);
    Combine(r.paths, r.files)
  }

  method Sweep(implementations: seq<string>, groups: seq<Group>, runs: nat, results: Results)
    returns (rows: seq<Row>, ghost logs: seq<seq<Attempts>>)
    ensures rows == RowsOf(implementations, groups, runs, results)
    ensures logs == AfterTrials(implementations, groups, runs, results).logs
  {
    hide AfterGroup;
    var paths: seq<Name>, files: Files := [], map[];
    logs := [];
    for trial := 1 to runs + 1
      invariant Record(paths, files, logs) == AfterTrials(implementations, groups, trial - 1, results)
    {
      ghost var before := Record(paths, files, logs);
      ghost var now: seq<Attempts> := [];
      for k := 0 to |groups|
        invariant Record(paths, files, before.logs + [now])
               == AfterGroups(implementations, groups, trial, k, before, results)
      {
        var more;
        ghost var attempts;
        more, files, attempts := SweepGroup(implementations, groups[k], trial, k, files, results);
        paths, now := paths + more, now + [attempts];
      }
      logs := logs + [now];
    }
    rows := Combine(paths, files);
  }

  // ------------------------------------------------------------------ counting

  /** How many rows, or how many valid rows, a key has for one rate. */
  function Count(rows: seq<Row>, key: Key, rate: real, onlyValid: bool): nat {
    if rows == [] then 0
    else
      var row := rows[|rows| - 1];
      Count(rows[..|rows| - 1], key, rate, onlyValid)
        + (if row.key == key && row.rate == rate && (onlyValid ==> row.valid) then 1 else 0)
  }

  lemma CountOne(rows: seq<Row>, row: Row, key: Key, rate: real, onlyValid: bool)
    ensures Count(rows + [row], key, rate, onlyValid)
         == Count(rows, key, rate, onlyValid)
             + (if row.key == key && row.rate == rate && (onlyValid ==> row.valid) then 1 else 0)
  {
    assert (rows + [row])[..|rows|] == rows;
  }

  lemma {:induction false} CountAppend(a: seq<Row>, b: seq<Row>, key: Key, rate: real, onlyValid: bool)
    ensures Count(a + b, key, rate, onlyValid) == Count(a, key, rate, onlyValid) + Count(b, key, rate, onlyValid)
  {
    if b == [] {
      assert a + b == a;
    } else {
      var front, row := b[..|b| - 1], b[|b| - 1];
      CountAppend(a, front, key, rate, onlyValid);
      assert a + b == (a + front) + [row];
      CountOne(a + front, row, key, rate, onlyValid);
    }
  }

  lemma {:induction false} CountNone(rows: seq<Row>, key: Key, rate: real, onlyValid: bool)
    requires forall row :: row in rows ==> row.key != key || row.rate != rate
    ensures Count(rows, key, rate, onlyValid) == 0
  {
    if rows != [] {
      assert rows[|rows| - 1] in rows;
      assert forall row :: row in rows[..|rows| - 1] ==> row in rows;
      CountNone(rows[..|rows| - 1], key, rate, onlyValid);
    }
  }

  lemma {:induction false} CountedIsThere(rows: seq<Row>, key: Key, rate: real)
    requires Count(rows, key, rate, false) > 0
    ensures Row(key, rate, true) in rows || Row(key, rate, false) in rows
  {
    var row := rows[|rows| - 1];
    if row.key != key || row.rate != rate {
      CountedIsThere(rows[..|rows| - 1], key, rate);
    } else if row.valid {
      assert row == Row(key, rate, true);
    } else {
      assert row == Row(key, rate, false);
    }
  }

  // --------------------------------------------------------------- the summary

  datatype Highest = Unsustained | UpTo(rate: real)

  datatype Report = Report(key: Key, highest: Highest)

  /** The key has exactly `runs` rows for the rate, all valid. */
  predicate Sustained(rows: seq<Row>, key: Key, rate: real, runs: nat) {
    Count(rows, key, rate, false) == runs && Count(rows, key, rate, true) == runs
  }

  /** The rows of a key and rate, by place. */
  function PlacesOf(rows: seq<Row>, key: Key, rate: real): set<nat> {
    set i | 0 <= i < |rows| && rows[i].key == key && rows[i].rate == rate
  }

  lemma {:induction false} CountIsSize(rows: seq<Row>, key: Key, rate: real)
    ensures Count(rows, key, rate, false) == |PlacesOf(rows, key, rate)|
    ensures Count(rows, key, rate, true) <= Count(rows, key, rate, false)
    ensures Count(rows, key, rate, true) == Count(rows, key, rate, false)
       <==> forall i :: i in PlacesOf(rows, key, rate) ==> rows[i].valid
  {
    if rows != [] {
      var n := |rows| - 1;
      CountIsSize(rows[..n], key, rate);
      PlacesNext(rows, n, key, rate);
      hide PlacesOf;
      forall i | i in PlacesOf(rows[..n], key, rate) ensures i < n && rows[..n][i] == rows[i] {
      }
    }
  }

  lemma PlacesNext(rows: seq<Row>, n: nat, key: Key, rate: real)
    requires |rows| == n + 1
    ensures PlacesOf(rows, key, rate)
         == PlacesOf(rows[..n], key, rate) + (if rows[n].key == key && rows[n].rate == rate then {n} else {})
    ensures n !in PlacesOf(rows[..n], key, rate) && forall i :: i in PlacesOf(rows[..n], key, rate) ==> i < n
  {
  }

  /** A rate is sustained exactly if it has one row for each run, all valid. */
  lemma SustainedIs(rows: seq<Row>, key: Key, rate: real, runs: nat)
    ensures Sustained(rows, key, rate, runs) <==>
      && |PlacesOf(rows, key, rate)| == runs
      && forall i :: i in PlacesOf(rows, key, rate) ==> rows[i].valid
  {
    CountIsSize(rows, key, rate);
  }

  function RatesOf(rows: seq<Row>, key: Key): set<real> {
    set row | row in rows && row.key == key :: row.rate
  }

  lemma SustainedIsARate(rows: seq<Row>, key: Key, rate: real, runs: nat)
    requires runs > 0 && Sustained(rows, key, rate, runs)
    ensures rate in RatesOf(rows, key)
  {
    CountedIsThere(rows, key, rate);
    assert Row(key, rate, true).key == key && Row(key, rate, false).key == key;
  }

  /** The report names the greatest sustained rate, if there is one. */
  ghost predicate IsHighest(rows: seq<Row>, r: Report, runs: nat) {
    match r.highest
    case Unsustained => forall rate :: !Sustained(rows, r.key, rate, runs)
    case UpTo(highest) =>
      && Sustained(rows, r.key, highest, runs)
      && forall rate :: Sustained(rows, r.key, rate, runs) ==> rate <= highest
  }

  /** The report belongs in the summary: its key has rows, and it is right. */
  ghost predicate IsReport(rows: seq<Row>, r: Report, runs: nat) {
    r.key.experiment != Sparse && (exists row :: row in rows && row.key == r.key) && IsHighest(rows, r, runs)
  }

  /** The highest sustained rate of one key. */
  method HighestRate(rows: seq<Row>, key: Key, runs: nat) returns (highest: Highest)
    requires runs > 0
    ensures IsHighest(rows, Report(key, highest), runs)
  {
    var todo := RatesOf(rows, key);
    highest := Unsustained;
    while todo != {}
      invariant todo <= RatesOf(rows, key)
      invariant highest.UpTo? ==> Sustained(rows, key, highest.rate, runs)
      invariant forall rate :: rate in RatesOf(rows, key) - todo && Sustained(rows, key, rate, runs)
                  ==> highest.UpTo? && rate <= highest.rate
      decreases |todo|
    {
      var rate :| rate in todo;
      todo := todo - {rate};
      if Sustained(rows, key, rate, runs) && (highest.Unsustained? || highest.rate < rate) {
        highest := UpTo(rate);
      }
    }
    forall rate | Sustained(rows, key, rate, runs)
      ensures highest.UpTo? && rate <= highest.rate
    {
      SustainedIsARate(rows, key, rate, runs);
    }
  }

  ghost predicate Reported(reports: set<Report>, key: Key) {
    exists r :: r in reports && r.key == key
  }

  lemma ReportedSoFar(reports: set<Report>, report: Report)
    ensures Reported(reports + {report}, report.key)
    ensures forall key :: Reported(reports, key) ==> Reported(reports + {report}, key)
  {
    assert report in reports + {report};
    forall key | Reported(reports, key) ensures Reported(reports + {report}, key) {
      var r :| r in reports && r.key == key;
      assert r in reports + {report};
    }
  }

  /** Exactly one report for each dense or broadcast key of the rows. */
  method Summarize(rows: seq<Row>, runs: nat) returns (reports: set<Report>)
    requires runs > 0
    ensures forall r :: r in reports <==> IsReport(rows, r, runs)
    ensures forall r, q :: r in reports && q in reports && r.key == q.key ==> r == q
    ensures forall row :: row in rows && row.key.experiment != Sparse ==> Reported(reports, row.key)
  {
    hide IsHighest;
    var keys := set row | row in rows && row.key.experiment != Sparse :: row.key;
    var todo := keys;
    reports := {};
    while todo != {}
      invariant todo <= keys
      invariant forall r :: r in reports ==> r.key in keys - todo && IsHighest(rows, r, runs)
      invariant forall key :: key in keys - todo ==> Reported(reports, key)
      decreases |todo|
    {
      var key :| key in todo;
      todo := todo - {key};
      var highest := HighestRate(rows, key, runs);
      var report := Report(key, highest);
      ReportedSoFar(reports, report);
      reports := reports + {report};
    }
    forall r | IsReport(rows, r, runs) ensures r in reports {
      assert Reported(reports, r.key);
      var q :| q in reports && q.key == r.key;
      HighestIsUnique(rows, q, r, runs);
    }
    forall r, q | r in reports && q in reports && r.key == q.key ensures r == q {
      HighestIsUnique(rows, q, r, runs);
    }
  }

  lemma HighestIsUnique(rows: seq<Row>, r: Report, q: Report, runs: nat)
    requires IsHighest(rows, r, runs) && IsHighest(rows, q, runs) && r.key == q.key
    ensures r == q
  {
    hide Sustained;
  }
}
