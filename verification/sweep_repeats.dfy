/** What listing a rate, a tier or an implementation twice does to a sweep, and
    the exact condition for its summary. */
module SweepRepeats {
  import opened RateSweep
  import opened SweepTheorems

  /** If an experiment is selected and has something to sweep, none of its
      tiers and rates and no implementation is listed twice. */
  ghost predicate ListedOnce(selected: bool, tiers: seq<int>, rates: seq<real>, implementations: seq<string>) {
    selected && tiers != [] && rates != [] ==> Distinct(tiers) && Distinct(rates) && Distinct(implementations)
  }

  ghost predicate NoRepeats(o: Options, implementations: seq<string>) {
    && ListedOnce(Dense in o.selected, o.denseTiers, o.denseRates, implementations)
    && ListedOnce(Broadcast in o.selected, o.broadcastTiers, o.broadcastRates, implementations)
  }

  // -------------------------------------------------------------- sorted rates

  lemma {:induction false} InsertIs(rate: real, rates: seq<real>)
    ensures multiset(Insert(rate, rates)) == multiset(rates) + multiset{rate}
    ensures forall x :: x in Insert(rate, rates) <==> x == rate || x in rates
  {
    if rates != [] {
      assert rates == [rates[0]] + rates[1..];
      if rate > rates[0] {
        InsertIs(rate, rates[1..]);
      }
    }
  }

  lemma {:induction false} SortedIs(rates: seq<real>)
    ensures multiset(Sorted(rates)) == multiset(rates)
  {
    if rates != [] {
      assert rates == [rates[0]] + rates[1..];
      SortedIs(rates[1..]);
      InsertIs(rates[0], Sorted(rates[1..]));
    }
  }

  lemma SortedHas(rates: seq<real>, x: real)
    ensures x in Sorted(rates) <==> x in rates
  {
    SortedIs(rates);
    assert x in multiset(Sorted(rates)) <==> x in multiset(rates);
  }

  lemma FirstLeast(rate: real, rates: seq<real>)
    requires Increasing(rates) && forall x :: x in rates ==> rate < x
    ensures Increasing([rate] + rates)
  {
    forall i, j | 0 <= i < j < |rates| + 1
      ensures ([rate] + rates)[i] < ([rate] + rates)[j]
    {
      assert ([rate] + rates)[j] == rates[j - 1];
      assert rates[j - 1] in rates;
    }
  }

  lemma {:induction false} InsertKeeps(rate: real, rates: seq<real>)
    requires Increasing(rates) && rate !in rates
    ensures Increasing(Insert(rate, rates))
  {
    if rates == [] || rate <= rates[0] {
      FirstLeast(rate, rates);
    } else {
      InsertKeeps(rate, rates[1..]);
      InsertIs(rate, rates[1..]);
      FirstLeast(rates[0], Insert(rate, rates[1..]));
    }
  }

  lemma {:induction false} SortedIncreases(rates: seq<real>)
    requires Distinct(rates)
    ensures Increasing(Sorted(rates))
  {
    if rates != [] {
      SortedIncreases(rates[1..]);
      SortedHas(rates[1..], rates[0]);
      InsertKeeps(rates[0], Sorted(rates[1..]));
    }
  }

  /** Where the groups of an experiment are. */
  lemma GroupIs(o: Options, g: Group)
    requires g in GroupsOf(o) && g.experiment != Sparse
    ensures var tiers, rates := if g.experiment == Dense then o.denseTiers else o.broadcastTiers,
                                if g.experiment == Dense then o.denseRates else o.broadcastRates;
      g.experiment in o.selected && g.total in tiers && g == Group(g.experiment, g.total, g.total, Sorted(rates))
  {
    SparseGroupsAre(o.sparseTiers, o.sparseActive, o.sparseRate, g);
  }

  function Sparses(o: Options): seq<Group> {
    if Sparse in o.selected then SparseGroups(o.sparseTiers, o.sparseActive, o.sparseRate) else []
  }

  function Denses(o: Options): seq<Group> {
    if Dense in o.selected then TierGroups(Dense, o.denseTiers, o.denseRates) else []
  }

  function Broadcasts(o: Options): seq<Group> {
    if Broadcast in o.selected then TierGroups(Broadcast, o.broadcastTiers, o.broadcastRates) else []
  }

  ghost predicate DifferentTiers(groups: seq<Group>) {
    forall i, j :: 0 <= i < j < |groups| && Reportable(groups[i]) && Reportable(groups[j]) ==>
      !SameTier(groups[i], groups[j])
  }

  lemma DifferentTiersJoin(a: seq<Group>, b: seq<Group>)
    requires DifferentTiers(a) && DifferentTiers(b)
    requires forall g, h :: g in a && h in b && Reportable(g) ==> g.experiment != h.experiment
    ensures DifferentTiers(a + b)
  {
    forall i, j | 0 <= i < j < |a + b| && Reportable((a + b)[i]) && Reportable((a + b)[j])
      ensures !SameTier((a + b)[i], (a + b)[j])
    {
      if i < |a| <= j {
        assert (a + b)[i] in a && (a + b)[j] in b;
      }
    }
  }

  lemma SparsesAreSparse(o: Options)
    ensures forall g :: g in Sparses(o) ==> g.experiment == Sparse
  {
    forall g | g in Sparses(o) ensures g.experiment == Sparse {
      SparseGroupsAre(o.sparseTiers, o.sparseActive, o.sparseRate, g);
    }
  }

  lemma GroupsDiffer(o: Options, implementations: seq<string>)
    requires NoRepeats(o, implementations)
    ensures DifferentTiers(GroupsOf(o))
  {
    hide SparseGroups, Sorted;
    SparsesAreSparse(o);
    assert DifferentTiers(Sparses(o)) by {
      forall i | 0 <= i < |Sparses(o)| ensures Sparses(o)[i].experiment == Sparse {
        assert Sparses(o)[i] in Sparses(o);
      }
    }
    EmptySorted(o.denseRates);
    EmptySorted(o.broadcastRates);
    DifferentTiersJoin(Sparses(o), Denses(o));
    DifferentTiersJoin(Sparses(o) + Denses(o), Broadcasts(o));
    assert GroupsOf(o) == Sparses(o) + Denses(o) + Broadcasts(o);
  }

  lemma EmptySorted(rates: seq<real>)
    ensures Sorted(rates) == [] <==> rates == []
  {
    SortedIs(rates);
    assert |multiset(Sorted(rates))| == |multiset(rates)|;
  }

  /** With nothing listed twice the groups are as the sweep needs them. */
  lemma GroupsAreOk(o: Options, implementations: seq<string>)
    requires NoRepeats(o, implementations)
    ensures GroupsOk(GroupsOf(o))
    ensures forall g :: g in GroupsOf(o) && Reportable(g) ==> Distinct(implementations)
  {
    GroupsDiffer(o, implementations);
    forall g | g in GroupsOf(o) && Reportable(g) ensures Increasing(g.rates) && Distinct(implementations) {
      GroupIs(o, g);
      var rates := if g.experiment == Dense then o.denseRates else o.broadcastRates;
      EmptySorted(rates);
      SortedIncreases(rates);
    }
  }

  /** Then the summary tells the truth, whatever the runs do. */
  lemma OnceTells(o: Options, implementations: seq<string>, runs: nat, results: Results)
    requires NoRepeats(o, implementations) && runs > 0
    ensures Tells(RowsOf(implementations, GroupsOf(o), runs, results), GroupsOf(o),
                  AfterTrials(implementations, GroupsOf(o), runs, results).logs)
  {
    hide GroupsOf, RowsOf, AfterTrials, IsHighest, TellsRate, Distinct, GroupsOk, NoRepeats;
    var groups := GroupsOf(o);
    var rows := RowsOf(implementations, groups, runs, results);
    var logs := AfterTrials(implementations, groups, runs, results).logs;
    GroupsAreOk(o, implementations);
    forall r, k, i | IsReport(rows, r, runs) && 0 <= k < |groups| && r.key == KeyOf(groups[k], r.key.server)
                     && 0 <= i < |groups[k].rates|
      ensures TellsRate(rows, groups, logs, r, k, i)
    {
      assert groups[k] in groups && Reportable(groups[k]);
      RateTold(implementations, groups, runs, results, r, k, i);
    }
  }

  // ------------------------------------------------------------- flawless runs

  /** Every run exits well and writes a valid row. */
  function Flawless(): Results {
    (turn: Turn) => Result(true, Written(true))
  }

  ghost predicate AllValid(paths: seq<Name>, files: Files) {
    && (forall n :: n in files ==> files[n])
    && (forall n :: n in paths ==> n in files)
  }

  lemma {:induction false} CombineValid(paths: seq<Name>, a: Files, b: Files)
    requires AllValid(paths, a) && AllValid([], b) && a.Keys <= b.Keys
    ensures Combine(paths, a) == Combine(paths, b)
  {
    forall i | 0 <= i < |paths| ensures RowOf(paths[i], a) == RowOf(paths[i], b) {
      assert paths[i] in paths;
    }
  }

  /** One run more adds one valid row, and drops nobody. */
  lemma FlawlessTurn(g: Group, turn: Turn, server: string, s: Stand)
    requires turn.rate < |g.rates| && server in s.active && AllValid(s.paths, s.files)
    ensures var t := TakeTurn(g, turn, server, s, Flawless());
      && AllValid(t.paths, t.files) && s.files.Keys <= t.files.Keys && t.active == s.active
      && Combine(t.paths, t.files) == Combine(s.paths, s.files) + [Row(KeyOf(g, server), g.rates[turn.rate], true)]
      && t.attempts == s.attempts[(server, turn.rate) := Measured(true)]
  {
    var t := TakeTurn(g, turn, server, s, Flawless());
    CombineValid(s.paths, s.files, t.files);
  }

  /** How often `x` is in the list. */
  function Times<T(==)>(list: seq<T>, x: T): nat {
    multiset(list)[x]
  }

  lemma TimesNext<T>(list: seq<T>, n: nat, x: T)
    requires n < |list|
    ensures Times(list[..n + 1], x) == Times(list[..n], x) + (if list[n] == x then 1 else 0)
  {
    assert list[..n + 1] == list[..n] + [list[n]];
  }

  /** How many rows the first `n` turns at rate `k` add for a key and rate. */
  function TurnShare(g: Group, k: nat, order: seq<string>, n: nat, key: Key, rate: real): nat
    requires k < |g.rates| && n <= |order|
  {
    if key == KeyOf(g, key.server) && g.rates[k] == rate then Times(order[..n], key.server) else 0
  }

  lemma {:induction false} FlawlessTurns(g: Group, trial: nat, group: nat, k: nat, order: seq<string>, n: nat, s: Stand)
    requires k < |g.rates| && n <= |order| && s.active == Elements(order) && AllValid(s.paths, s.files)
    ensures var t := AfterTurns(g, trial, group, k, order, n, s, Flawless());
      && AllValid(t.paths, t.files) && s.files.Keys <= t.files.Keys && t.active == s.active
      && (forall key, rate, v :: Count(Combine(t.paths, t.files), key, rate, v)
            == Count(Combine(s.paths, s.files), key, rate, v) + TurnShare(g, k, order, n, key, rate))
      && (forall server, i: nat :: i != k ==> Succeeded(t.attempts, server, i) == Succeeded(s.attempts, server, i))
      && (forall m :: 0 <= m < n ==> Succeeded(t.attempts, order[m], k))
  {
    hide TakeTurn, Count, Combine, AllValid;
    if n > 0 {
      FlawlessTurns(g, trial, group, k, order, n - 1, s);
      var t := AfterTurns(g, trial, group, k, order, n - 1, s, Flawless());
      var u := TakeTurn(g, Turn(trial, group, k, n - 1), order[n - 1], t, Flawless());
      FlawlessTurn(g, Turn(trial, group, k, n - 1), order[n - 1], t);
      forall key, rate, v
        ensures Count(Combine(u.paths, u.files), key, rate, v)
             == Count(Combine(s.paths, s.files), key, rate, v) + TurnShare(g, k, order, n, key, rate)
      {
        CountOne(Combine(t.paths, t.files), Row(KeyOf(g, order[n - 1]), g.rates[k], true), key, rate, v);
        TimesNext(order, n - 1, key.server);
      }
    }
  }

  /** How many rows the first `k` rates of a group add in one trial. */
  function RateShare(g: Group, implementations: seq<string>, k: nat, key: Key, rate: real): nat
    requires k <= |g.rates|
  {
    if key == KeyOf(g, key.server) then Times(g.rates[..k], rate) * Times(implementations, key.server) else 0
  }

  lemma RateShareNext(g: Group, implementations: seq<string>, order: seq<string>, k: nat, key: Key, rate: real)
    requires k < |g.rates| && multiset(order) == multiset(implementations)
    ensures RateShare(g, implementations, k + 1, key, rate)
         == RateShare(g, implementations, k, key, rate) + TurnShare(g, k, order, |order|, key, rate)
  {
    assert order[..|order|] == order;
    TimesNext(g.rates, k, rate);
    var x, y := Times(g.rates[..k], rate), Times(implementations, key.server);
    assert (x + 1) * y == x * y + y;
  }

  lemma {:induction false} FlawlessRates(implementations: seq<string>, g: Group, trial: nat, group: nat, k: nat,
                                         files: Files)
    requires k <= |g.rates| && AllValid([], files)
    ensures var t := AfterRates(implementations, g, trial, group, k, files, Flawless());
      && AllValid(t.paths, t.files) && files.Keys <= t.files.Keys && t.active == Elements(implementations)
      && (forall key, rate, v ::
            Count(Combine(t.paths, t.files), key, rate, v) == RateShare(g, implementations, k, key, rate))
      && (forall server, i: nat :: server in implementations && i < k ==> Succeeded(t.attempts, server, i))
  {
    hide AfterTurns, RateShare, TurnShare, Succeeded, Elements;
    if k == 0 {
      NoShare(g, implementations);
    } else {
      FlawlessRates(implementations, g, trial, group, k - 1, files);
      var s := AfterRates(implementations, g, trial, group, k - 1, files, Flawless());
      var order := ExecutionOrder(implementations, trial);
      OrderIsAll(implementations, trial);
      FlawlessTurns(g, trial, group, k - 1, order, |order|, s);
      forall key, rate
        ensures RateShare(g, implementations, k, key, rate)
             == RateShare(g, implementations, k - 1, key, rate) + TurnShare(g, k - 1, order, |order|, key, rate)
      {
        RateShareNext(g, implementations, order, k - 1, key, rate);
      }
      forall server | server in implementations ensures exists m :: 0 <= m < |order| && order[m] == server {
        SameMembers(order, implementations, server);
      }
    }
  }

  lemma SameMembers(order: seq<string>, implementations: seq<string>, server: string)
    requires multiset(order) == multiset(implementations) && server in implementations
    ensures exists m :: 0 <= m < |order| && order[m] == server
  {
    assert server in multiset(order);
  }

  lemma NoShare(g: Group, implementations: seq<string>)
    ensures forall key, rate :: RateShare(g, implementations, 0, key, rate) == 0
  {
    assert g.rates[..0] == [];
  }

  /** How many rows the first `n` groups add in one trial. */
  function Share(groups: seq<Group>, implementations: seq<string>, n: nat, key: Key, rate: real): nat
    requires n <= |groups|
  {
    if n == 0 then 0
    else Share(groups, implementations, n - 1, key, rate)
         + RateShare(groups[n - 1], implementations, |groups[n - 1].rates|, key, rate)
  }

  /** Every run of the group succeeded. */
  ghost predicate AllSucceeded(a: Attempts, g: Group, implementations: seq<string>) {
    forall server, i: nat :: server in implementations && i < |g.rates| ==> Succeeded(a, server, i)
  }

  ghost predicate AllLogged(logs: seq<seq<Attempts>>, groups: seq<Group>, implementations: seq<string>) {
    forall t, k :: 0 <= t < |logs| && 0 <= k < |logs[t]| && k < |groups| ==>
      AllSucceeded(logs[t][k], groups[k], implementations)
  }

  lemma {:induction false} FlawlessGroups(implementations: seq<string>, groups: seq<Group>, trial: nat, n: nat,
                                          before: Record)
    requires n <= |groups| && AllValid(before.paths, before.files) && AllLogged(before.logs, groups, implementations)
    ensures var r := AfterGroups(implementations, groups, trial, n, before, Flawless());
      && AllValid(r.paths, r.files) && AllLogged(r.logs, groups, implementations)
      && forall key, rate, v :: Count(Combine(r.paths, r.files), key, rate, v)
           == Count(Combine(before.paths, before.files), key, rate, v) + Share(groups, implementations, n, key, rate)
  {
    hide AfterGroup, AllSucceeded, RateShare, Count;
    if n > 0 {
      var k := n - 1;
      FlawlessGroups(implementations, groups, trial, k, before);
      var r := AfterGroups(implementations, groups, trial, k, before, Flawless());
      var s := AfterGroup(implementations, groups[k], trial, k, r.files, Flawless());
      FlawlessGroup(implementations, groups[k], trial, k, r.files);
      CombineValid(r.paths, r.files, s.files);
      assert Combine(r.paths + s.paths, s.files) == Combine(r.paths, s.files) + Combine(s.paths, s.files);
      forall key, rate, v
        ensures Count(Combine(r.paths + s.paths, s.files), key, rate, v)
             == Count(Combine(before.paths, before.files), key, rate, v) + Share(groups, implementations, n, key, rate)
      {
        CountAppend(Combine(r.paths, s.files), Combine(s.paths, s.files), key, rate, v);
      }
      LoggedAfterGroup(before.logs, r.logs[|before.logs|], s.attempts, r.logs, groups, implementations);
    }
  }

  lemma LoggedAfterGroup(before: seq<seq<Attempts>>, now: seq<Attempts>, a: Attempts, logs: seq<seq<Attempts>>,
                         groups: seq<Group>, implementations: seq<string>)
    requires |logs| == |before| + 1 && logs[..|before|] == before && logs[|before|] == now && |now| < |groups|
    requires AllLogged(logs, groups, implementations) && AllSucceeded(a, groups[|now|], implementations)
    ensures AllLogged(before + [now + [a]], groups, implementations)
  {
    hide AllSucceeded;
    var after := before + [now + [a]];
    forall t, k | 0 <= t < |after| && 0 <= k < |after[t]| && k < |groups|
      ensures AllSucceeded(after[t][k], groups[k], implementations)
    {
      assert t < |before| ==> after[t] == logs[t];
    }
  }

  lemma FlawlessGroup(implementations: seq<string>, g: Group, trial: nat, group: nat, files: Files)
    requires AllValid([], files)
    ensures var t := AfterGroup(implementations, g, trial, group, files, Flawless());
      && AllValid(t.paths, t.files) && files.Keys <= t.files.Keys && AllSucceeded(t.attempts, g, implementations)
      && forall key, rate, v :: Count(Combine(t.paths, t.files), key, rate, v)
           == RateShare(g, implementations, |g.rates|, key, rate)
  {
    hide AfterRates, RateShare, Count;
    FlawlessRates(implementations, g, trial, group, |g.rates|, files);
  }

  /** Flawless runs give each key the same number of rows in every trial. */
  lemma {:induction false} FlawlessTrials(implementations: seq<string>, groups: seq<Group>, runs: nat)
    ensures var r := AfterTrials(implementations, groups, runs, Flawless());
      && AllValid(r.paths, r.files) && AllLogged(r.logs, groups, implementations)
      && (forall t :: 0 <= t < |r.logs| ==> |r.logs[t]| == |groups|)
      && forall key, rate, v :: Count(Combine(r.paths, r.files), key, rate, v)
           == runs * Share(groups, implementations, |groups|, key, rate)
  {
    hide AfterGroups, Share, AllSucceeded;
    if runs > 0 {
      FlawlessTrials(implementations, groups, runs - 1);
      var before := AfterTrials(implementations, groups, runs - 1, Flawless());
      FlawlessGroups(implementations, groups, runs, |groups|, before);
      var r := AfterGroups(implementations, groups, runs, |groups|, before, Flawless());
      forall t | 0 <= t < |r.logs| ensures |r.logs[t]| == |groups| {
        assert t < runs - 1 ==> r.logs[t] == r.logs[..runs - 1][t];
      }
      forall key, rate, v
        ensures Count(Combine(r.paths, r.files), key, rate, v)
             == runs * Share(groups, implementations, |groups|, key, rate)
      {
        var x := Share(groups, implementations, |groups|, key, rate);
        assert (runs - 1) * x + x == runs * x;
      }
    }
  }

  // ------------------------------------------------------------- what repeats do

  lemma TimesTwice<T>(list: seq<T>, i: nat, j: nat)
    requires i < j < |list| && list[i] == list[j]
    ensures Times(list, list[i]) >= 2
  {
    TimesAt(list[..j], i);
    TimesNext(list, j, list[i]);
    TimesGrows(list, j + 1, list[i]);
  }

  lemma TimesAt<T>(list: seq<T>, i: nat)
    requires i < |list|
    ensures Times(list, list[i]) >= 1
  {
    assert list[i] in multiset(list);
  }

  lemma TimesGrows<T>(list: seq<T>, n: nat, x: T)
    requires n <= |list|
    ensures Times(list[..n], x) <= Times(list, x)
  {
    assert list == list[..n] + list[n..];
    assert multiset(list) == multiset(list[..n]) + multiset(list[n..]);
  }

  lemma {:induction false} ShareAtLeast(groups: seq<Group>, implementations: seq<string>, n: nat, k: nat, key: Key,
                                        rate: real)
    requires k < n <= |groups|
    ensures Share(groups, implementations, n, key, rate)
         >= Share(groups, implementations, k, key, rate)
             + RateShare(groups[k], implementations, |groups[k].rates|, key, rate)
  {
    hide RateShare;
    if k + 1 < n {
      ShareAtLeast(groups, implementations, n - 1, k, key, rate);
    }
  }

  lemma OwnShare(g: Group, implementations: seq<string>, server: string, i: nat)
    requires i < |g.rates|
    ensures RateShare(g, implementations, |g.rates|, KeyOf(g, server), g.rates[i])
         == Times(g.rates, g.rates[i]) * Times(implementations, server)
  {
    assert g.rates[..|g.rates|] == g.rates;
  }

  lemma ProductAtLeast(x: nat, y: nat)
    requires x >= 1 && y >= 1
    ensures x * y >= x && x * y >= y
  {
  }

  /** A repeat shows: the runs of some group at some rate give two rows or
      more in every trial. */
  ghost predicate Doubled(groups: seq<Group>, implementations: seq<string>, k: nat, server: string, i: nat) {
    && k < |groups| && Reportable(groups[k]) && i < |groups[k].rates| && server in implementations
    && Share(groups, implementations, |groups|, KeyOf(groups[k], server), groups[k].rates[i]) >= 2
  }

  lemma OneDoubled(groups: seq<Group>, implementations: seq<string>, k: nat, server: string, i: nat)
    requires k < |groups| && Reportable(groups[k]) && i < |groups[k].rates| && server in implementations
    requires Times(groups[k].rates, groups[k].rates[i]) >= 2 || Times(implementations, server) >= 2
    ensures Doubled(groups, implementations, k, server, i)
  {
    OwnShare(groups[k], implementations, server, i);
    TimesAt(groups[k].rates, i);
    assert server in multiset(implementations);
    ProductAtLeast(Times(groups[k].rates, groups[k].rates[i]), Times(implementations, server));
    ShareAtLeast(groups, implementations, |groups|, k, KeyOf(groups[k], server), groups[k].rates[i]);
  }

  lemma TwoDoubled(groups: seq<Group>, implementations: seq<string>, j: nat, k: nat, server: string)
    requires j < k < |groups| && groups[j] == groups[k] && Reportable(groups[k]) && server in implementations
    ensures Doubled(groups, implementations, k, server, 0)
  {
    var key, rate := KeyOf(groups[k], server), groups[k].rates[0];
    OwnShare(groups[k], implementations, server, 0);
    TimesAt(groups[k].rates, 0);
    assert server in multiset(implementations);
    ProductAtLeast(Times(groups[k].rates, rate), Times(implementations, server));
    ShareAtLeast(groups, implementations, k, j, key, rate);
    ShareAtLeast(groups, implementations, |groups|, k, key, rate);
  }

  /** Where the groups of an experiment begin. */
  function FirstOf(o: Options, e: Experiment): nat {
    match e
    case Sparse => 0
    case Dense => |Sparses(o)|
    case Broadcast => |Sparses(o)| + |Denses(o)|
  }

  lemma GroupAt(o: Options, e: Experiment, m: nat)
    requires e != Sparse && e in o.selected
    requires m < |if e == Dense then o.denseTiers else o.broadcastTiers|
    ensures FirstOf(o, e) + m < |GroupsOf(o)|
    ensures var tiers, rates := if e == Dense then o.denseTiers else o.broadcastTiers,
                                if e == Dense then o.denseRates else o.broadcastRates;
      GroupsOf(o)[FirstOf(o, e) + m] == Group(e, tiers[m], tiers[m], Sorted(rates))
  {
    assert GroupsOf(o) == Sparses(o) + Denses(o) + Broadcasts(o);
  }

  /** A list without repeats, or two places of one element. */
  lemma RepeatIn<T>(list: seq<T>) returns (i: nat, j: nat)
    requires !Distinct(list)
    ensures i < j < |list| && list[i] == list[j]
  {
    i, j :| 0 <= i < j < |list| && list[i] == list[j];
  }

  lemma SomeDoubled(o: Options, implementations: seq<string>, e: Experiment, tiers: seq<int>, rates: seq<real>)
    requires e != Sparse && tiers == (if e == Dense then o.denseTiers else o.broadcastTiers)
    requires rates == (if e == Dense then o.denseRates else o.broadcastRates)
    requires !ListedOnce(e in o.selected, tiers, rates, implementations) && implementations != []
    ensures exists k, server, i :: Doubled(GroupsOf(o), implementations, k, server, i)
  {
    hide GroupsOf, Share, RateShare, Times, Sorted, Distinct, FirstOf, Doubled;
    var first, groups := FirstOf(o, e), GroupsOf(o);
    EmptySorted(rates);
    GroupAt(o, e, 0);
    assert Reportable(groups[first]);
    if !Distinct(implementations) {
      var i, j := RepeatIn(implementations);
      TimesTwice(implementations, i, j);
      OneDoubled(groups, implementations, first, implementations[i], 0);
      assert Doubled(groups, implementations, first, implementations[i], 0);
    } else if !Distinct(rates) {
      var i, j := RepeatIn(rates);
      TimesTwice(rates, i, j);
      var m := PlaceInSorted(rates, rates[i]);
      OneDoubled(groups, implementations, first, implementations[0], m);
      assert Doubled(groups, implementations, first, implementations[0], m);
    } else {
      var i, j := RepeatIn(tiers);
      GroupAt(o, e, i);
      GroupAt(o, e, j);
      TwoDoubled(groups, implementations, first + i, first + j, implementations[0]);
      assert Doubled(groups, implementations, first + j, implementations[0], 0);
    }
  }

  lemma PlaceInSorted(rates: seq<real>, rate: real) returns (m: nat)
    requires Times(rates, rate) >= 2
    ensures m < |Sorted(rates)| && Sorted(rates)[m] == rate && Times(Sorted(rates), rate) >= 2
  {
    SortedIs(rates);
    assert rate in multiset(Sorted(rates));
    m :| 0 <= m < |Sorted(rates)| && Sorted(rates)[m] == rate;
  }

  lemma {:induction false} Greatest(rates: set<real>) returns (highest: real)
    requires rates != {}
    ensures highest in rates && forall rate :: rate in rates ==> rate <= highest
  {
    if forall x: real :: x !in rates {
      assert false;
    }
    var rate :| rate in rates;
    var others := rates - {rate};
    if others == {} {
      highest := rate;
      assert forall x :: x in rates ==> x == rate || x in others;
    } else {
      var next := Greatest(others);
      highest := if rate < next then next else rate;
      assert forall x :: x in rates ==> x == rate || x in others;
    }
  }

  /** Every key has a highest rate, or none. */
  lemma HighestExists(rows: seq<Row>, key: Key, runs: nat) returns (highest: Highest)
    requires runs > 0
    ensures IsHighest(rows, Report(key, highest), runs)
  {
    hide Count;
    var rates := set rate | rate in RatesOf(rows, key) && Sustained(rows, key, rate, runs);
    forall rate | Sustained(rows, key, rate, runs) ensures rate in rates {
      SustainedIsARate(rows, key, rate, runs);
    }
    if rates == {} {
      highest := Unsustained;
    } else {
      var rate := Greatest(rates);
      highest := UpTo(rate);
    }
  }

  /** Where runs are doubled, flawless runs leave a rate without exactly one
      row a trial, though all of them succeeded. */
  lemma DoubledMisleads(groups: seq<Group>, implementations: seq<string>, runs: nat, k: nat, server: string, i: nat)
    requires runs > 0 && Doubled(groups, implementations, k, server, i)
    ensures var logs := AfterTrials(implementations, groups, runs, Flawless()).logs;
      var rows := RowsOf(implementations, groups, runs, Flawless());
      && AlwaysSucceeded(logs, k, server, i)
      && !Sustained(rows, KeyOf(groups[k], server), groups[k].rates[i], runs)
      && !Tells(rows, groups, logs)
  {
    hide AfterTrials, Share, Combine, IsHighest;
    var r := AfterTrials(implementations, groups, runs, Flawless());
    var rows := RowsOf(implementations, groups, runs, Flawless());
    var key, rate := KeyOf(groups[k], server), groups[k].rates[i];
    FlawlessTrials(implementations, groups, runs);
    var x := Share(groups, implementations, |groups|, key, rate);
    TwiceIsMore(runs, x);
    forall t | 0 <= t < |r.logs| ensures Succeeded(r.logs[t][k], server, i) {
      assert AllSucceeded(r.logs[t][k], groups[k], implementations);
    }
    assert AlwaysSucceeded(r.logs, k, server, i);
    assert Count(rows, key, rate, false) == runs * x;
    CountedIsThere(rows, key, rate);
    assert Row(key, rate, true).key == key && Row(key, rate, false).key == key;
    var highest := HighestExists(rows, key, runs);
    var report := Report(key, highest);
    assert IsReport(rows, report, runs);
    assert !TellsRate(rows, groups, r.logs, report, k, i);
  }

  lemma TwiceIsMore(runs: nat, x: nat)
    requires runs > 0 && x >= 2
    ensures runs * x > runs
  {
    assert runs * x >= runs * 2;
  }

  /** Whatever the runs do, the summary tells exactly which rates always
      succeeded: if and only if nothing that is swept is listed twice. */
  lemma SummaryTellsIff(o: Options, implementations: seq<string>, runs: nat)
    requires runs > 0 && implementations != []
    ensures (forall results: Results :: Tells(RowsOf(implementations, GroupsOf(o), runs, results), GroupsOf(o),
                                              AfterTrials(implementations, GroupsOf(o), runs, results).logs))
       <==> NoRepeats(o, implementations)
  {
    hide Tells, RowsOf, AfterTrials, GroupsOf, ListedOnce, Doubled;
    if NoRepeats(o, implementations) {
      forall results: Results
        ensures Tells(RowsOf(implementations, GroupsOf(o), runs, results), GroupsOf(o),
                      AfterTrials(implementations, GroupsOf(o), runs, results).logs)
      {
        OnceTells(o, implementations, runs, results);
      }
    } else {
      if !ListedOnce(Dense in o.selected, o.denseTiers, o.denseRates, implementations) {
        SomeDoubled(o, implementations, Dense, o.denseTiers, o.denseRates);
      } else {
        SomeDoubled(o, implementations, Broadcast, o.broadcastTiers, o.broadcastRates);
      }
      var k, server, i :| Doubled(GroupsOf(o), implementations, k, server, i);
      DoubledMisleads(GroupsOf(o), implementations, runs, k, server, i);
    }
  }

  // ------------------------------------------------------------ a repeated rate

  /** One dense tier with the rate 1 listed twice. */
  function RateTwice(): Options {
    Options({Dense}, [], [], 0.0, [1], [1.0, 1.0], [], [])
  }

  lemma RateTwiceGroups()
    ensures GroupsOf(RateTwice()) == [Group(Dense, 1, 1, [1.0, 1.0])]
  {
    assert Sorted([1.0, 1.0]) == [1.0, 1.0] by {
      assert [1.0, 1.0][1..] == [1.0] && [1.0][1..] == [];
    }
    assert GroupsOf(RateTwice()) == Sparses(RateTwice()) + Denses(RateTwice()) + Broadcasts(RateTwice());
  }

  /** A rate listed twice is not counted as sustained though all its runs succeed. */
  lemma RepeatedRateUncounted(server: string, runs: nat)
    requires runs > 0
    ensures var groups := GroupsOf(RateTwice());
      var rows := RowsOf([server], groups, runs, Flawless());
      var logs := AfterTrials([server], groups, runs, Flawless()).logs;
      |groups| == 1 && AlwaysSucceeded(logs, 0, server, 0) && !Sustained(rows, Key(Dense, server, 1), 1.0, runs)
  {
    hide AfterTrials, RowsOf, AlwaysSucceeded, Sustained, GroupsOf, Share;
    RateTwiceGroups();
    var groups := GroupsOf(RateTwice());
    TimesTwice(groups[0].rates, 0, 1);
    OneDoubled(groups, [server], 0, server, 0);
    DoubledMisleads(groups, [server], runs, 0, server, 0);
  }

  /** Every run of the first trial succeeds, all others fail. */
  function FirstTrialOnly(): Results {
    (turn: Turn) => if turn.trial == 1 then Result(true, Written(true)) else Result(false, Nothing)
  }

  /** And it can be counted as sustained in two trials though its runs failed
      in the second: both rows of the first trial count. */
  lemma RepeatedRateMiscounted(server: string)
    ensures var groups := GroupsOf(RateTwice());
      var rows := RowsOf([server], groups, 2, FirstTrialOnly());
      var logs := AfterTrials([server], groups, 2, FirstTrialOnly()).logs;
      |groups| == 1 && !AlwaysSucceeded(logs, 0, server, 0) && Sustained(rows, Key(Dense, server, 1), 1.0, 2)
  {
    hide AfterGroup, Sorted, SparseGroups;
    RateTwiceGroups();
    var g, results := Group(Dense, 1, 1, [1.0, 1.0]), FirstTrialOnly();
    var n := Name(1, Dense, 1, 1, 1.0, server);
    var files: Files := map[n := true];
    FirstTrial(g, server, n, files);
    SecondTrial(g, server, files);
    OneTrial(g, server, 1, results);
    OneTrial(g, server, 2, results);
    var r2 := AfterTrials([server], [g], 2, results);
    assert r2.paths == [n, n] && r2.files == files;
    assert !Succeeded(r2.logs[1][0], server, 0);
    var row := Row(Key(Dense, server, 1), 1.0, true);
    assert Combine(r2.paths, r2.files) == [] + [row] + [row];
    forall v ensures Count([] + [row] + [row], row.key, 1.0, v) == 2 {
      CountOne([], row, row.key, 1.0, v);
      CountOne([] + [row], row, row.key, 1.0, v);
    }
  }

  lemma OneTrial(g: Group, server: string, runs: nat, results: Results)
    requires runs > 0
    ensures var before, r := AfterTrials([server], [g], runs - 1, results), AfterTrials([server], [g], runs, results);
      var s := AfterGroup([server], g, runs, 0, before.files, results);
      r == Record(before.paths + s.paths, s.files, before.logs + [[s.attempts]])
    ensures runs == 1 ==> AfterTrials([server], [g], 0, results) == Record([], map[], [])
  {
    hide AfterGroup;
    var before := AfterTrials([server], [g], runs - 1, results);
    var r := AfterGroups([server], [g], runs, 0, before, results);
    assert r == Record(before.paths, before.files, before.logs + [[]]);
    var s := AfterGroup([server], g, runs, 0, before.files, results);
    assert AfterGroups([server], [g], runs, 1, before, results)
        == Record(before.paths + s.paths, s.files, before.logs + [[] + [s.attempts]]);
    assert [] + [s.attempts] == [s.attempts];
  }

  /** One implementation: each rate has one turn. */
  lemma OneRate(g: Group, server: string, trial: nat, k: nat, files: Files, results: Results)
    requires k < |g.rates|
    ensures AfterRates([server], g, trial, 0, k + 1, files, results)
         == TakeTurn(g, Turn(trial, 0, k, 0), server, AfterRates([server], g, trial, 0, k, files, results), results)
  {
    hide TakeTurn;
    var s := AfterRates([server], g, trial, 0, k, files, results);
    assert ExecutionOrder([server], trial) == [server];
    assert AfterTurns(g, trial, 0, k, [server], 0, s, results) == s;
    assert AfterTurns(g, trial, 0, k, [server], 1, s, results) == TakeTurn(g, Turn(trial, 0, k, 0), server, s, results);
  }

  lemma FirstTrial(g: Group, server: string, n: Name, files: Files)
    requires g == Group(Dense, 1, 1, [1.0, 1.0]) && n == Name(1, Dense, 1, 1, 1.0, server) && files == map[n := true]
    ensures var s := AfterGroup([server], g, 1, 0, map[], FirstTrialOnly());
      s.paths == [n, n] && s.files == files
  {
    hide AfterTurns;
    var results := FirstTrialOnly();
    OneRate(g, server, 1, 0, map[], results);
    OneRate(g, server, 1, 1, map[], results);
    var s0, s1 := AfterRates([server], g, 1, 0, 0, map[], results), AfterRates([server], g, 1, 0, 1, map[], results);
    assert s0 == Stand([], map[], Elements([server]), map[]) && server in s0.active;
    assert s1.paths == [n] && s1.files == files && server in s1.active;
  }

  lemma SecondTrial(g: Group, server: string, files: Files)
    requires g == Group(Dense, 1, 1, [1.0, 1.0])
    ensures var s := AfterGroup([server], g, 2, 0, files, FirstTrialOnly());
      s.paths == [] && s.files == files && !Succeeded(s.attempts, server, 0)
  {
    hide AfterTurns;
    var results := FirstTrialOnly();
    OneRate(g, server, 2, 0, files, results);
    OneRate(g, server, 2, 1, files, results);
    var s0, s1 := AfterRates([server], g, 2, 0, 0, files, results), AfterRates([server], g, 2, 0, 1, files, results);
    assert s0 == Stand([], files, Elements([server]), map[]) && server in s0.active;
    assert server !in s1.active && !Succeeded(s1.attempts, server, 0);
  }

  /** A whole comparison: groups, sweep, summary. */
  method Compare(o: Options, implementations: seq<string>, runs: nat, results: Results)
    returns (groups: seq<Group>, rows: seq<Row>, reports: set<Report>, ghost logs: seq<seq<Attempts>>)
    requires runs > 0 && implementations != []
    ensures groups == GroupsOf(o) && rows == RowsOf(implementations, groups, runs, results)
    ensures logs == AfterTrials(implementations, groups, runs, results).logs
    ensures forall r :: r in reports <==> IsReport(rows, r, runs)
    ensures forall r, q :: r in reports && q in reports && r.key == q.key ==> r == q
    ensures NoRepeats(o, implementations) ==> Tells(rows, groups, logs)
  {
    hide Tells, IsReport, AfterTrials, RowsOf, GroupsOf, NoRepeats;
    groups := ExperimentGroups(o);
    rows, logs := Sweep(implementations, groups, runs, results);
    reports := Summarize(rows, runs);
    if NoRepeats(o, implementations) {
      OnceTells(o, implementations, runs, results);
    }
  }
}
