/** When the summary of a rate sweep tells the truth: for every result of the
    runs exactly if nothing that is swept was listed twice. */
module SweepTheorems {
  import opened RateSweep

  ghost predicate Increasing(rates: seq<real>) {
    forall i, j :: 0 <= i < j < |rates| ==> rates[i] < rates[j]
  }

  ghost predicate Distinct<T>(list: seq<T>) {
    forall i, j :: 0 <= i < j < |list| ==> list[i] != list[j]
  }

  function KeyOf(g: Group, server: string): Key {
    Key(g.experiment, server, g.total)
  }

  function Ran(rows: seq<Row>, g: Group, server: string, i: nat): nat
    requires i < |g.rates|
  {
    Count(rows, KeyOf(g, server), g.rates[i], false)
  }

  function Passed(rows: seq<Row>, g: Group, server: string, i: nat): nat
    requires i < |g.rates|
  {
    Count(rows, KeyOf(g, server), g.rates[i], true)
  }

  // ---------------------------------------------------------- the runs of a group

  predicate Yielded(a: Attempts, server: string, i: nat) {
    (server, i) in a && a[(server, i)].Measured?
  }

  predicate Succeeded(a: Attempts, server: string, i: nat) {
    (server, i) in a && a[(server, i)] == Measured(true)
  }

  ghost predicate SucceededBelow(a: Attempts, server: string, i: nat) {
    forall j: nat :: j < i ==> Succeeded(a, server, j)
  }

  /** The runs made before rate `k`, and at it by those not in `todo`: an
      implementation is run at a rate exactly if it succeeded at every lower one. */
  ghost predicate RunsMade(a: Attempts, all: set<string>, k: nat, todo: set<string>) {
    forall server: string, i: nat :: (server, i) in a <==>
      server in all && SucceededBelow(a, server, i) && (i < k || (i == k && server !in todo))
  }

  /** The rows of a group tell exactly which runs yielded a row, and a valid one. */
  ghost predicate RowsTell(rows: seq<Row>, g: Group, a: Attempts) {
    forall server, i :: 0 <= i < |g.rates| ==>
      && Ran(rows, g, server, i) == (if Yielded(a, server, i) then 1 else 0)
      && Passed(rows, g, server, i) == (if Succeeded(a, server, i) then 1 else 0)
  }

  ghost predicate ActiveIs(active: set<string>, a: Attempts, all: set<string>, k: nat, todo: set<string>) {
    forall server :: server in active <==>
      server in all && SucceededBelow(a, server, k) && (server in todo || Succeeded(a, server, k))
  }

  /** The file belongs to this group in this trial. */
  ghost predicate IsOf(n: Name, g: Group, trial: nat) {
    && n.trial == trial && n.experiment == g.experiment && n.total == g.total && n.active == g.active
    && n.rate in g.rates
  }

  ghost predicate Attempted(a: Attempts, g: Group, n: Name) {
    exists i :: 0 <= i < |g.rates| && g.rates[i] == n.rate && (n.server, i) in a
  }

  /** No file of the group exists but those of runs already made. */
  ghost predicate NamesMade(s: Stand, g: Group, trial: nat) {
    forall n :: (n in s.files || n in s.paths) && IsOf(n, g, trial) ==> Attempted(s.attempts, g, n)
  }

  ghost predicate Clean(files: Files, g: Group, trial: nat) {
    forall n :: n in files ==> !IsOf(n, g, trial)
  }

  /** Where the sweep of a group stands at rate `k`, when the implementations
      in `todo` have not had their turn. `unused` says that the directory held
      no file of the group before. */
  ghost predicate Stands(s: Stand, g: Group, trial: nat, all: set<string>, k: nat, todo: set<string>, unused: bool) {
    && RunsMade(s.attempts, all, k, todo)
    && ActiveIs(s.active, s.attempts, all, k, todo)
    && (unused ==> RowsTell(Combine(s.paths, s.files), g, s.attempts) && NamesMade(s, g, trial))
  }

  lemma CombineMore(paths: seq<Name>, files: Files, name: Name, valid: bool)
    requires name !in paths
    ensures Combine(paths, files[name := valid]) == Combine(paths, files)
    ensures Combine(paths + [name], files[name := valid]) == Combine(paths, files) + [RowOf(name, files[name := valid])]
  {
    forall i | 0 <= i < |paths| ensures RowOf(paths[i], files[name := valid]) == RowOf(paths[i], files) {
      assert paths[i] in paths;
    }
  }

  /** The rows of a run with this outcome. */
  function RowsMade(g: Group, server: string, k: nat, outcome: Outcome): seq<Row>
    requires k < |g.rates|
  {
    if outcome.Measured? then [Row(KeyOf(g, server), g.rates[k], outcome.valid)] else []
  }

  lemma RowsCount(rows: seq<Row>, g: Group, server: string, k: nat, outcome: Outcome, other: string, i: nat)
    requires Increasing(g.rates) && k < |g.rates| && i < |g.rates|
    ensures var more := rows + RowsMade(g, server, k, outcome);
      && Ran(more, g, other, i) == Ran(rows, g, other, i)
           + (if other == server && i == k && outcome.Measured? then 1 else 0)
      && Passed(more, g, other, i) == Passed(rows, g, other, i)
           + (if other == server && i == k && outcome == Measured(true) then 1 else 0)
  {
    if outcome.Measured? {
      CountOne(rows, RowsMade(g, server, k, outcome)[0], KeyOf(g, other), g.rates[i], false);
      CountOne(rows, RowsMade(g, server, k, outcome)[0], KeyOf(g, other), g.rates[i], true);
    } else {
      assert rows + [] == rows;
    }
  }

  /** One run more keeps the account of what ran. */
  lemma AttemptKeeps(a: Attempts, active: set<string>, all: set<string>, k: nat, todo: set<string>, server: string,
                     outcome: Outcome)
    requires RunsMade(a, all, k, todo) && ActiveIs(active, a, all, k, todo) && server in todo && server in active
    ensures var b := a[(server, k) := outcome];
      && RunsMade(b, all, k, todo - {server})
      && ActiveIs(if outcome == Measured(true) then active else active - {server}, b, all, k, todo - {server})
      && (server, k) !in a
  {
    var b := a[(server, k) := outcome];
    assert (server, k) !in a;
    forall other, i: nat | (other, i) != (server, k) ensures Succeeded(b, other, i) == Succeeded(a, other, i) {
    }
    forall other, i: nat | i <= k ensures SucceededBelow(b, other, i) == SucceededBelow(a, other, i) {
    }
    forall i: nat | i > k ensures (server, i) !in a {
      assert !Succeeded(a, server, k);
    }
  }

  lemma RowsKeep(rows: seq<Row>, g: Group, a: Attempts, server: string, k: nat, outcome: Outcome)
    requires Increasing(g.rates) && k < |g.rates| && RowsTell(rows, g, a) && (server, k) !in a
    ensures RowsTell(rows + RowsMade(g, server, k, outcome), g, a[(server, k) := outcome])
  {
    hide Ran, Passed, RowsMade, Increasing;
    forall other, i | 0 <= i < |g.rates|
      ensures var b, more := a[(server, k) := outcome], rows + RowsMade(g, server, k, outcome);
        && Ran(more, g, other, i) == (if Yielded(b, other, i) then 1 else 0)
        && Passed(more, g, other, i) == (if Succeeded(b, other, i) then 1 else 0)
    {
      RowsCount(rows, g, server, k, outcome, other, i);
    }
  }

  /** A file of the run about to be made does not exist yet. */
  lemma NameIsNew(s: Stand, g: Group, trial: nat, server: string, k: nat)
    requires Increasing(g.rates) && k < |g.rates| && NamesMade(s, g, trial) && (server, k) !in s.attempts
    ensures NameOf(g, trial, k, server) !in s.files && NameOf(g, trial, k, server) !in s.paths
  {
    var n := NameOf(g, trial, k, server);
    assert IsOf(n, g, trial);
    assert !Attempted(s.attempts, g, n);
  }

  lemma NamesKeep(s: Stand, g: Group, turn: Turn, server: string, results: Results)
    requires turn.rate < |g.rates| && NamesMade(s, g, turn.trial) && server in s.active
    ensures NamesMade(TakeTurn(g, turn, server, s, results), g, turn.trial)
  {
    var t := TakeTurn(g, turn, server, s, results);
    var made := NameOf(g, turn.trial, turn.rate, server);
    forall n | (n in t.files || n in t.paths) && IsOf(n, g, turn.trial) ensures Attempted(t.attempts, g, n) {
      if n == made {
        assert (n.server, turn.rate) in t.attempts;
      } else {
        assert Attempted(s.attempts, g, n);
        var i :| 0 <= i < |g.rates| && g.rates[i] == n.rate && (n.server, i) in s.attempts;
        assert (n.server, i) in t.attempts;
      }
    }
  }

  lemma TurnRows(s: Stand, g: Group, turn: Turn, server: string, results: Results)
    requires turn.rate < |g.rates| && server in s.active
    requires NameOf(g, turn.trial, turn.rate, server) !in s.files
    requires NameOf(g, turn.trial, turn.rate, server) !in s.paths
    ensures var t := TakeTurn(g, turn, server, s, results);
      && (server, turn.rate) in t.attempts
      && t.attempts == s.attempts[(server, turn.rate) := t.attempts[(server, turn.rate)]]
      && Combine(t.paths, t.files) == Combine(s.paths, s.files)
           + RowsMade(g, server, turn.rate, t.attempts[(server, turn.rate)])
  {
    var name, r := NameOf(g, turn.trial, turn.rate, server), results(turn);
    if r.written.Written? {
      CombineMore(s.paths, s.files, name, r.written.valid);
    }
    assert Combine(s.paths, s.files) + [] == Combine(s.paths, s.files);
  }

  lemma TurnKeeps(s: Stand, g: Group, turn: Turn, server: string, results: Results, all: set<string>, todo: set<string>,
                  unused: bool)
    requires turn.rate < |g.rates| && server in todo && (unused ==> Increasing(g.rates))
    requires Stands(s, g, turn.trial, all, turn.rate, todo, unused)
    ensures Stands(TakeTurn(g, turn, server, s, results), g, turn.trial, all, turn.rate, todo - {server}, unused)
  {
    if server !in s.active {
      hide RowsTell, NamesMade;
    } else {
      var t := TakeTurn(g, turn, server, s, results);
      AttemptKeeps(s.attempts, s.active, all, turn.rate, todo, server, t.attempts[(server, turn.rate)]);
      if unused {
        NameIsNew(s, g, turn.trial, server, turn.rate);
        NamesKeep(s, g, turn, server, results);
        TurnRows(s, g, turn, server, results);
        RowsKeep(Combine(s.paths, s.files), g, s.attempts, server, turn.rate, t.attempts[(server, turn.rate)]);
      }
      hide RowsTell, NamesMade, RunsMade, ActiveIs;
    }
  }

  lemma {:induction false} ReversedElements(s: seq<string>)
    ensures multiset(Reversed(s)) == multiset(s)
  {
    if s != [] {
      var front, last := s[..|s| - 1], s[|s| - 1];
      ReversedElements(front);
      assert Reversed(s) == [last] + Reversed(front);
      assert s == front + [last];
    }
  }

  /** The first trial and every second one after it take the implementations as
      listed, the others backwards. */
  lemma OrderAlternates(implementations: seq<string>, m: nat, i: nat)
    requires i < |implementations|
    ensures ExecutionOrder(implementations, 2 * m + 1)[i] == implementations[i]
    ensures ExecutionOrder(implementations, 2 * m + 2)[i] == implementations[|implementations| - 1 - i]
  {
    assert (2 * m + 1) % 2 == 1 && (2 * m + 2) % 2 == 0;
  }

  lemma OrderIsAll(implementations: seq<string>, trial: nat)
    ensures multiset(ExecutionOrder(implementations, trial)) == multiset(implementations)
    ensures Elements(ExecutionOrder(implementations, trial)) == Elements(implementations)
    ensures Distinct(implementations) ==> Distinct(ExecutionOrder(implementations, trial))
  {
    ReversedElements(implementations);
    forall x ensures x in ExecutionOrder(implementations, trial) <==> x in implementations {
      assert x in multiset(ExecutionOrder(implementations, trial)) <==> x in multiset(implementations);
    }
  }

  lemma NextTodo(order: seq<string>, n: nat)
    requires Distinct(order) && n < |order|
    ensures order[n] in Elements(order[n..])
    ensures Elements(order[n..]) - {order[n]} == Elements(order[n + 1..])
  {
    assert order[n..] == [order[n]] + order[n + 1..];
  }

  lemma {:induction false} TurnsKeep(g: Group, trial: nat, group: nat, k: nat, order: seq<string>, n: nat, s: Stand,
                                     results: Results, unused: bool)
    requires k < |g.rates| && n <= |order| && Distinct(order) && (unused ==> Increasing(g.rates))
    requires Stands(s, g, trial, Elements(order), k, Elements(order), unused)
    ensures Stands(AfterTurns(g, trial, group, k, order, n, s, results), g, trial, Elements(order), k,
                   Elements(order[n..]), unused)
  {
    hide Stands, Elements, TakeTurn;
    if n == 0 {
      assert order[0..] == order;
    } else {
      TurnsKeep(g, trial, group, k, order, n - 1, s, results, unused);
      NextTodo(order, n - 1);
      TurnKeeps(AfterTurns(g, trial, group, k, order, n - 1, s, results), g, Turn(trial, group, k, n - 1), order[n - 1],
                results, Elements(order), Elements(order[n - 1..]), unused);
    }
  }

  /** After the last turn at rate `k` the next rate begins. */
  lemma NextRate(s: Stand, g: Group, trial: nat, all: set<string>, k: nat, unused: bool)
    requires Stands(s, g, trial, all, k, {}, unused)
    ensures Stands(s, g, trial, all, k + 1, all, unused)
  {
    hide RowsTell, NamesMade;
  }

  lemma NothingStands(g: Group, trial: nat, files: Files, all: set<string>, unused: bool)
    requires unused ==> Clean(files, g, trial)
    ensures Stands(Stand([], files, all, map[]), g, trial, all, 0, all, unused)
  {
  }

  lemma NoneLeft(order: seq<string>)
    ensures Elements(order[|order|..]) == {}
  {
    assert order[|order|..] == [];
  }

  lemma {:induction false} RatesKeep(implementations: seq<string>, g: Group, trial: nat, group: nat, k: nat,
                                     files: Files,
                                     results: Results, unused: bool)
    requires k <= |g.rates| && Distinct(implementations)
    requires unused ==> Clean(files, g, trial) && Increasing(g.rates)
    ensures Stands(AfterRates(implementations, g, trial, group, k, files, results), g, trial,
                   Elements(implementations), k,
                   Elements(implementations), unused)
  {
    hide Stands, Elements, AfterTurns, Distinct, Clean;
    if k == 0 {
      NothingStands(g, trial, files, Elements(implementations), unused);
    } else {
      var order := ExecutionOrder(implementations, trial);
      var s := AfterRates(implementations, g, trial, group, k - 1, files, results);
      RatesKeep(implementations, g, trial, group, k - 1, files, results, unused);
      OrderIsAll(implementations, trial);
      TurnsKeep(g, trial, group, k - 1, order, |order|, s, results, unused);
      NoneLeft(order);
      NextRate(AfterTurns(g, trial, group, k - 1, order, |order|, s, results), g, trial, Elements(implementations),
               k - 1, unused);
    }
  }

  /** In one trial of a group an implementation is run at a rate exactly if its
      runs at all lower rates succeeded; if the directory held none of the
      group's files, each run that did not fail has one row. */
  lemma GroupSwept(implementations: seq<string>, g: Group, trial: nat, group: nat, files: Files, results: Results)
    requires Distinct(implementations)
    ensures var s := AfterGroup(implementations, g, trial, group, files, results);
      && RunsMade(s.attempts, Elements(implementations), |g.rates|, Elements(implementations))
      && (Clean(files, g, trial) && Increasing(g.rates) ==> RowsTell(Combine(s.paths, s.files), g, s.attempts))
  {
    hide RunsMade, RowsTell, Clean, Increasing, Elements, AfterRates;
    RatesKeep(implementations, g, trial, group, |g.rates|, files, results,
              Clean(files, g, trial) && Increasing(g.rates));
  }

  // ---------------------------------------------------------- honest outcomes

  /** What a run is worth that finds no file of its own there. */
  function OutcomeOf(r: Result): Outcome {
    if r.succeeded && r.written.Written? then Measured(r.written.valid) else Failed
  }

  /** Every attempt has the outcome of its own run. */
  ghost predicate Honest(a: Attempts, g: Group, trial: nat, group: nat, order: seq<string>, results: Results) {
    forall n, i :: 0 <= n < |order| && 0 <= i < |g.rates| && (order[n], i) in a ==>
      a[(order[n], i)] == OutcomeOf(results(Turn(trial, group, i, n)))
  }

  lemma TurnHonest(s: Stand, g: Group, turn: Turn, order: seq<string>, results: Results, all: set<string>,
                   todo: set<string>)
    requires turn.rate < |g.rates| && turn.place < |order| && Distinct(order) && Increasing(g.rates)
    requires order[turn.place] in todo
    requires Stands(s, g, turn.trial, all, turn.rate, todo, true)
    requires Honest(s.attempts, g, turn.trial, turn.group, order, results)
    ensures Honest(TakeTurn(g, turn, order[turn.place], s, results).attempts, g, turn.trial, turn.group, order, results)
  {
    var server := order[turn.place];
    if server in s.active {
      AttemptKeeps(s.attempts, s.active, all, turn.rate, todo, server, Failed);
      NameIsNew(s, g, turn.trial, server, turn.rate);
      var t := TakeTurn(g, turn, server, s, results);
      assert t.attempts == s.attempts[(server, turn.rate) := OutcomeOf(results(turn))];
    }
  }

  lemma {:induction false} TurnsHonest(g: Group, trial: nat, group: nat, k: nat, order: seq<string>, n: nat, s: Stand,
                                       results: Results)
    requires k < |g.rates| && n <= |order| && Distinct(order) && Increasing(g.rates)
    requires Stands(s, g, trial, Elements(order), k, Elements(order), true)
    requires Honest(s.attempts, g, trial, group, order, results)
    ensures Honest(AfterTurns(g, trial, group, k, order, n, s, results).attempts, g, trial, group, order, results)
  {
    hide Stands, Elements, TakeTurn, Honest;
    if n > 0 {
      TurnsHonest(g, trial, group, k, order, n - 1, s, results);
      TurnsKeep(g, trial, group, k, order, n - 1, s, results, true);
      NextTodo(order, n - 1);
      TurnHonest(AfterTurns(g, trial, group, k, order, n - 1, s, results), g, Turn(trial, group, k, n - 1), order,
                 results, Elements(order), Elements(order[n - 1..]));
    }
  }

  lemma {:induction false} RatesHonest(implementations: seq<string>, g: Group, trial: nat, group: nat, k: nat,
                                       files: Files, results: Results)
    requires k <= |g.rates| && Distinct(implementations) && Clean(files, g, trial) && Increasing(g.rates)
    ensures Honest(AfterRates(implementations, g, trial, group, k, files, results).attempts, g, trial, group,
                   ExecutionOrder(implementations, trial), results)
  {
    hide Stands, Elements, AfterTurns, Distinct, Clean;
    if k > 0 {
      hide Honest;
      var order := ExecutionOrder(implementations, trial);
      var s := AfterRates(implementations, g, trial, group, k - 1, files, results);
      RatesHonest(implementations, g, trial, group, k - 1, files, results);
      RatesKeep(implementations, g, trial, group, k - 1, files, results, true);
      OrderIsAll(implementations, trial);
      TurnsHonest(g, trial, group, k - 1, order, |order|, s, results);
    }
  }

  /** In a directory without files of the group, what is recorded of each run is
      its own result: valid or not if it exited well and wrote a row, and else
      a failure. */
  lemma GroupHonest(implementations: seq<string>, g: Group, trial: nat, group: nat, files: Files, results: Results,
                    n: nat, i: nat)
    requires Distinct(implementations) && Clean(files, g, trial) && Increasing(g.rates)
    requires n < |implementations| && i < |g.rates|
    ensures var server, r := ExecutionOrder(implementations, trial)[n], results(Turn(trial, group, i, n));
      var a := AfterGroup(implementations, g, trial, group, files, results).attempts;
      (server, i) in a ==>
        a[(server, i)] == if r.succeeded && r.written.Written? then Measured(r.written.valid) else Failed
  {
    hide AfterRates, Clean, Increasing;
    RatesHonest(implementations, g, trial, group, |g.rates|, files, results);
  }

  // ------------------------------------------------- what a group leaves alone

  /** Only files of the group are written and only they are listed. */
  ghost predicate Confined(s: Stand, files: Files, g: Group, trial: nat) {
    && (forall n :: !IsOf(n, g, trial) ==> (n in s.files <==> n in files) && (n in files ==> s.files[n] == files[n]))
    && (forall n :: n in s.paths ==> IsOf(n, g, trial) && n in s.files)
  }

  lemma {:induction false} TurnsConfined(g: Group, trial: nat, group: nat, k: nat, order: seq<string>, n: nat, s: Stand,
                                         results: Results, files: Files)
    requires k < |g.rates| && n <= |order| && Confined(s, files, g, trial)
    ensures Confined(AfterTurns(g, trial, group, k, order, n, s, results), files, g, trial)
  {
    if n > 0 {
      TurnsConfined(g, trial, group, k, order, n - 1, s, results, files);
    }
  }

  lemma {:induction false} GroupConfined(implementations: seq<string>, g: Group, trial: nat, group: nat, k: nat,
                                         files: Files,
                                         results: Results)
    requires k <= |g.rates|
    ensures Confined(AfterRates(implementations, g, trial, group, k, files, results), files, g, trial)
  {
    hide AfterTurns;
    if k > 0 {
      var order := ExecutionOrder(implementations, trial);
      var s := AfterRates(implementations, g, trial, group, k - 1, files, results);
      GroupConfined(implementations, g, trial, group, k - 1, files, results);
      TurnsConfined(g, trial, group, k - 1, order, |order|, s, results, files);
    }
  }

  // --------------------------------------------------------- all trials together

  /** In how many trials the run at rate `i` of group `k` yielded a row. */
  function TimesYielded(logs: seq<seq<Attempts>>, k: nat, server: string, i: nat): nat {
    if logs == [] then 0
    else
      var last := logs[|logs| - 1];
      TimesYielded(logs[..|logs| - 1], k, server, i) + (if k < |last| && Yielded(last[k], server, i) then 1 else 0)
  }

  function TimesSucceeded(logs: seq<seq<Attempts>>, k: nat, server: string, i: nat): nat {
    if logs == [] then 0
    else
      var last := logs[|logs| - 1];
      TimesSucceeded(logs[..|logs| - 1], k, server, i) + (if k < |last| && Succeeded(last[k], server, i) then 1 else 0)
  }

  lemma TimesNow(logs: seq<seq<Attempts>>, now: seq<Attempts>, k: nat, server: string, i: nat)
    ensures TimesYielded(logs + [now], k, server, i)
         == TimesYielded(logs, k, server, i) + (if k < |now| && Yielded(now[k], server, i) then 1 else 0)
    ensures TimesSucceeded(logs + [now], k, server, i)
         == TimesSucceeded(logs, k, server, i) + (if k < |now| && Succeeded(now[k], server, i) then 1 else 0)
  {
    assert (logs + [now])[..|logs|] == logs;
  }

  lemma {:induction false} TimesAtMost(logs: seq<seq<Attempts>>, k: nat, server: string, i: nat)
    ensures TimesSucceeded(logs, k, server, i) <= TimesYielded(logs, k, server, i) <= |logs|
  {
    if logs != [] {
      TimesAtMost(logs[..|logs| - 1], k, server, i);
    }
  }

  /** The run at rate `i` succeeded in every trial. */
  ghost predicate AlwaysSucceeded(logs: seq<seq<Attempts>>, k: nat, server: string, i: nat) {
    forall t :: 0 <= t < |logs| ==> k < |logs[t]| && Succeeded(logs[t][k], server, i)
  }

  lemma {:induction false} AlwaysIsEveryTime(logs: seq<seq<Attempts>>, k: nat, server: string, i: nat)
    ensures TimesSucceeded(logs, k, server, i) == |logs| <==> AlwaysSucceeded(logs, k, server, i)
  {
    hide Succeeded;
    if logs != [] {
      var n := |logs| - 1;
      AlwaysIsEveryTime(logs[..n], k, server, i);
      TimesAtMost(logs[..n], k, server, i);
    }
  }

  ghost predicate SameTier(a: Group, b: Group) {
    a.experiment == b.experiment && a.total == b.total
  }

  /** The summary reports about the group, and something is swept in it. */
  ghost predicate Reportable(g: Group) {
    g.experiment != Sparse && g.rates != []
  }

  /** Each tier that is reported is swept once a trial, at increasing rates. */
  ghost predicate GroupsOk(groups: seq<Group>) {
    && (forall k :: 0 <= k < |groups| && Reportable(groups[k]) ==> Increasing(groups[k].rates))
    && (forall i, j :: 0 <= i < j < |groups| && Reportable(groups[i]) && Reportable(groups[j]) ==>
          !SameTier(groups[i], groups[j]))
  }

  /** The rows count the yields and successes of all trials. */
  ghost predicate AllTell(rows: seq<Row>, groups: seq<Group>, logs: seq<seq<Attempts>>) {
    forall k, server, i :: 0 <= k < |groups| && Reportable(groups[k]) && 0 <= i < |groups[k].rates| ==>
      && Ran(rows, groups[k], server, i) == TimesYielded(logs, k, server, i)
      && Passed(rows, groups[k], server, i) == TimesSucceeded(logs, k, server, i)
  }

  /** In every trial each group was swept as it should be. */
  ghost predicate AllSwept(logs: seq<seq<Attempts>>, groups: seq<Group>, all: set<string>) {
    forall t, k :: 0 <= t < |logs| && 0 <= k < |logs[t]| && k < |groups| ==>
      RunsMade(logs[t][k], all, |groups[k].rates|, all)
  }

  /** The file was written in an earlier trial, or for one of the first `k`
      groups in this one. */
  ghost predicate Earlier(n: Name, groups: seq<Group>, trial: nat, k: nat)
    requires k <= |groups|
  {
    n.trial < trial || exists j :: 0 <= j < k && IsOf(n, groups[j], trial)
  }

  ghost predicate NamesEarlier(r: Record, groups: seq<Group>, trial: nat, k: nat)
    requires k <= |groups|
  {
    forall n :: n in r.paths || n in r.files ==> Earlier(n, groups, trial, k)
  }

  lemma {:induction false} CountUnchanged(paths: seq<Name>, a: Files, b: Files, key: Key, rate: real, onlyValid: bool)
    requires forall n :: n in paths && n.experiment == key.experiment && n.total == key.total ==>
      (n in a <==> n in b) && (n in a ==> a[n] == b[n])
    ensures Count(Combine(paths, a), key, rate, onlyValid) == Count(Combine(paths, b), key, rate, onlyValid)
  {
    if paths != [] {
      var front, last := paths[..|paths| - 1], paths[|paths| - 1];
      assert last in paths && forall n :: n in front ==> n in paths;
      CountUnchanged(front, a, b, key, rate, onlyValid);
      assert Combine(paths, a) == Combine(front, a) + [RowOf(last, a)];
      assert Combine(paths, b) == Combine(front, b) + [RowOf(last, b)];
      CountOne(Combine(front, a), RowOf(last, a), key, rate, onlyValid);
      CountOne(Combine(front, b), RowOf(last, b), key, rate, onlyValid);
    }
  }

  /** In a group's turn its tier has no files of this trial yet. */
  lemma NotYet(n: Name, groups: seq<Group>, trial: nat, k: nat)
    requires GroupsOk(groups) && k < |groups| && Earlier(n, groups, trial, k) && n.experiment != Sparse
    ensures !IsOf(n, groups[k], trial)
  {
    if IsOf(n, groups[k], trial) {
      var j :| 0 <= j < k && IsOf(n, groups[j], trial);
      assert SameTier(groups[j], groups[k]);
    }
  }

  /** The rows after a group are those before it and its own. */
  lemma CountAfterGroup(groups: seq<Group>, trial: nat, k: nat, r: Record, s: Stand, key: Key, rate: real,
                        onlyValid: bool)
    requires GroupsOk(groups) && k < |groups| && NamesEarlier(r, groups, trial, k)
    requires Confined(s, r.files, groups[k], trial) && key.experiment != Sparse
    ensures Count(Combine(r.paths + s.paths, s.files), key, rate, onlyValid)
         == Count(Combine(r.paths, r.files), key, rate, onlyValid)
             + Count(Combine(s.paths, s.files), key, rate, onlyValid)
  {
    forall n | n in r.paths && n.experiment == key.experiment && n.total == key.total
      ensures (n in r.files <==> n in s.files) && (n in r.files ==> r.files[n] == s.files[n])
    {
      NotYet(n, groups, trial, k);
    }
    CountUnchanged(r.paths, r.files, s.files, key, rate, onlyValid);
    assert Combine(r.paths + s.paths, s.files) == Combine(r.paths, s.files) + Combine(s.paths, s.files);
    CountAppend(Combine(r.paths, s.files), Combine(s.paths, s.files), key, rate, onlyValid);
  }

  /** Rows of one group say nothing about another tier. */
  lemma OthersUntold(s: Stand, files: Files, other: Group, trial: nat, g: Group, server: string, i: nat)
    requires Confined(s, files, other, trial) && i < |g.rates| && (other.rates != [] ==> !SameTier(other, g))
    ensures Ran(Combine(s.paths, s.files), g, server, i) == 0 && Passed(Combine(s.paths, s.files), g, server, i) == 0
  {
    forall row | row in Combine(s.paths, s.files) ensures row.key != KeyOf(g, server) {
      var m :| 0 <= m < |s.paths| && RowOf(s.paths[m], s.files) == row;
      assert s.paths[m] in s.paths;
    }
    CountNone(Combine(s.paths, s.files), KeyOf(g, server), g.rates[i], false);
    CountNone(Combine(s.paths, s.files), KeyOf(g, server), g.rates[i], true);
  }

  /** What holds of a record when `k` groups of a trial are done. */
  ghost predicate RecordOk(r: Record, groups: seq<Group>, trial: nat, k: nat, all: set<string>)
    requires k <= |groups|
  {
    && NamesEarlier(r, groups, trial, k)
    && AllTell(Combine(r.paths, r.files), groups, r.logs)
    && AllSwept(r.logs, groups, all)
  }

  lemma NamesAfterGroup(groups: seq<Group>, trial: nat, k: nat, r: Record, s: Stand, logs: seq<seq<Attempts>>)
    requires k < |groups| && NamesEarlier(r, groups, trial, k) && Confined(s, r.files, groups[k], trial)
    ensures NamesEarlier(Record(r.paths + s.paths, s.files, logs), groups, trial, k + 1)
  {
    forall n | n in r.paths + s.paths || n in s.files ensures Earlier(n, groups, trial, k + 1) {
      if !IsOf(n, groups[k], trial) {
        assert Earlier(n, groups, trial, k);
      }
    }
  }

  lemma SweptAfterGroup(logs: seq<seq<Attempts>>, now: seq<Attempts>, a: Attempts, groups: seq<Group>, all: set<string>)
    requires |now| < |groups| && AllSwept(logs + [now], groups, all)
    requires RunsMade(a, all, |groups[|now|].rates|, all)
    ensures AllSwept(logs + [now + [a]], groups, all)
  {
    hide RunsMade;
    var before, after := logs + [now], logs + [now + [a]];
    forall t, k | 0 <= t < |after| && 0 <= k < |after[t]| && k < |groups|
      ensures RunsMade(after[t][k], all, |groups[k].rates|, all)
    {
      assert t < |logs| ==> after[t] == before[t];
      assert before[|logs|] == now;
    }
  }

  lemma CleanYet(groups: seq<Group>, trial: nat, k: nat, r: Record)
    requires GroupsOk(groups) && k < |groups| && Reportable(groups[k]) && NamesEarlier(r, groups, trial, k)
    ensures Clean(r.files, groups[k], trial)
  {
    forall n | n in r.files ensures !IsOf(n, groups[k], trial) {
      if n.experiment != Sparse {
        NotYet(n, groups, trial, k);
      }
    }
  }

  lemma TellsAfterGroup(groups: seq<Group>, trial: nat, r: Record, s: Stand, logs: seq<seq<Attempts>>,
                        now: seq<Attempts>)
    requires GroupsOk(groups) && |now| < |groups| && NamesEarlier(r, groups, trial, |now|)
    requires Confined(s, r.files, groups[|now|], trial)
    requires AllTell(Combine(r.paths, r.files), groups, logs + [now])
    requires Reportable(groups[|now|]) ==> RowsTell(Combine(s.paths, s.files), groups[|now|], s.attempts)
    ensures AllTell(Combine(r.paths + s.paths, s.files), groups, logs + [now + [s.attempts]])
  {
    hide Yielded, Succeeded, Confined, NamesEarlier, Increasing;
    forall k, server, i | 0 <= k < |groups| && Reportable(groups[k]) && 0 <= i < |groups[k].rates|
      ensures Ran(Combine(r.paths + s.paths, s.files), groups[k], server, i)
           == TimesYielded(logs + [now + [s.attempts]], k, server, i)
      ensures Passed(Combine(r.paths + s.paths, s.files), groups[k], server, i)
           == TimesSucceeded(logs + [now + [s.attempts]], k, server, i)
    {
      CountAfterGroup(groups, trial, |now|, r, s, KeyOf(groups[k], server), groups[k].rates[i], false);
      CountAfterGroup(groups, trial, |now|, r, s, KeyOf(groups[k], server), groups[k].rates[i], true);
      TimesNow(logs, now, k, server, i);
      TimesNow(logs, now + [s.attempts], k, server, i);
      if k != |now| {
        OthersUntold(s, r.files, groups[|now|], trial, groups[k], server, i);
      }
    }
  }

  lemma {:induction false} GroupsKeep(implementations: seq<string>, groups: seq<Group>, trial: nat, n: nat,
                                      before: Record,
                                      results: Results)
    requires GroupsOk(groups) && Distinct(implementations) && n <= |groups|
    requires RecordOk(before, groups, trial, 0, Elements(implementations))
    ensures RecordOk(AfterGroups(implementations, groups, trial, n, before, results), groups, trial, n,
                     Elements(implementations))
  {
    hide Distinct, Elements, NamesEarlier, AllTell, AllSwept, GroupsOk, Confined, RunsMade, RowsTell;
    hide Clean, AfterRates, Increasing;
    if n == 0 {
      TrialBegins(before, groups, trial, Elements(implementations));
    } else {
      var k, all := n - 1, Elements(implementations);
      var r := AfterGroups(implementations, groups, trial, k, before, results);
      var s := AfterGroup(implementations, groups[k], trial, k, r.files, results);
      var now := r.logs[|before.logs|];
      GroupsKeep(implementations, groups, trial, k, before, results);
      assert r.logs == before.logs + [now];
      GroupConfined(implementations, groups[k], trial, k, |groups[k].rates|, r.files, results);
      GroupSwept(implementations, groups[k], trial, k, r.files, results);
      if Reportable(groups[k]) {
        CleanYet(groups, trial, k, r);
        RatesIncrease(groups, k);
      }
      NamesAfterGroup(groups, trial, k, r, s, before.logs + [now + [s.attempts]]);
      SweptAfterGroup(before.logs, now, s.attempts, groups, all);
      TellsAfterGroup(groups, trial, r, s, before.logs, now);
    }
  }

  lemma RatesIncrease(groups: seq<Group>, k: nat)
    requires GroupsOk(groups) && k < |groups| && Reportable(groups[k])
    ensures Increasing(groups[k].rates)
  {
  }

  lemma TrialBegins(r: Record, groups: seq<Group>, trial: nat, all: set<string>)
    requires RecordOk(r, groups, trial, 0, all)
    ensures RecordOk(Record(r.paths, r.files, r.logs + [[]]), groups, trial, 0, all)
  {
    hide RunsMade, Ran, Passed;
    assert (r.logs + [[]])[..|r.logs|] == r.logs;
  }

  lemma TrialOver(r: Record, groups: seq<Group>, trial: nat, all: set<string>)
    requires RecordOk(r, groups, trial, |groups|, all)
    ensures RecordOk(r, groups, trial + 1, 0, all)
  {
    hide AllTell, AllSwept;
    forall n | n in r.paths || n in r.files ensures n.trial < trial + 1 {
      assert Earlier(n, groups, trial, |groups|);
    }
  }

  /** With nothing listed twice, the rows count exactly the yields and successes. */
  lemma {:induction false} TrialsKeep(implementations: seq<string>, groups: seq<Group>, runs: nat, results: Results)
    requires GroupsOk(groups) && Distinct(implementations)
    ensures RecordOk(AfterTrials(implementations, groups, runs, results), groups, runs + 1, 0,
                     Elements(implementations))
  {
    hide RecordOk, Elements, Distinct, GroupsOk, AfterGroups;
    if runs == 0 {
      NothingRecorded(groups, Elements(implementations));
    } else {
      TrialsKeep(implementations, groups, runs - 1, results);
      var before := AfterTrials(implementations, groups, runs - 1, results);
      GroupsKeep(implementations, groups, runs, |groups|, before, results);
      TrialOver(AfterGroups(implementations, groups, runs, |groups|, before, results), groups, runs,
                Elements(implementations));
    }
  }

  lemma NothingRecorded(groups: seq<Group>, all: set<string>)
    ensures RecordOk(Record([], map[], []), groups, 1, 0, all)
  {
  }

  /** Every recorded attempt of a reported group has the outcome of its own run. */
  ghost predicate AllHonest(logs: seq<seq<Attempts>>, groups: seq<Group>, implementations: seq<string>,
                            results: Results) {
    forall t, k :: 0 <= t < |logs| && 0 <= k < |logs[t]| && k < |groups| && Reportable(groups[k]) ==>
      Honest(logs[t][k], groups[k], t + 1, k, ExecutionOrder(implementations, t + 1), results)
  }

  lemma HonestMore(logs: seq<seq<Attempts>>, now: seq<Attempts>, a: Attempts, groups: seq<Group>,
                   implementations: seq<string>, results: Results)
    requires |now| < |groups| && AllHonest(logs + [now], groups, implementations, results)
    requires Reportable(groups[|now|]) ==>
      Honest(a, groups[|now|], |logs| + 1, |now|, ExecutionOrder(implementations, |logs| + 1), results)
    ensures AllHonest(logs + [now + [a]], groups, implementations, results)
  {
    hide Honest, Reportable, ExecutionOrder;
    var before, after := logs + [now], logs + [now + [a]];
    forall t, k | 0 <= t < |after| && 0 <= k < |after[t]| && k < |groups| && Reportable(groups[k])
      ensures Honest(after[t][k], groups[k], t + 1, k, ExecutionOrder(implementations, t + 1), results)
    {
      assert t < |logs| ==> after[t] == before[t];
      assert before[|logs|] == now;
    }
  }

  lemma HonestTrial(logs: seq<seq<Attempts>>, groups: seq<Group>, implementations: seq<string>, results: Results)
    requires AllHonest(logs, groups, implementations, results)
    ensures AllHonest(logs + [[]], groups, implementations, results)
  {
    hide Honest, Reportable, ExecutionOrder;
  }

  lemma {:induction false} GroupsHonest(implementations: seq<string>, groups: seq<Group>, trial: nat, n: nat,
                                        before: Record, results: Results)
    requires GroupsOk(groups) && Distinct(implementations) && n <= |groups| && |before.logs| + 1 == trial
    requires RecordOk(before, groups, trial, 0, Elements(implementations))
    requires AllHonest(before.logs, groups, implementations, results)
    ensures AllHonest(AfterGroups(implementations, groups, trial, n, before, results).logs, groups, implementations,
                      results)
  {
    hide Distinct, Elements, AllTell, AllSwept, GroupsOk, AllHonest, Honest, AfterRates, Increasing, Clean;
    hide NamesEarlier, ExecutionOrder;
    if n == 0 {
      HonestTrial(before.logs, groups, implementations, results);
    } else {
      var k := n - 1;
      var r := AfterGroups(implementations, groups, trial, k, before, results);
      var s := AfterGroup(implementations, groups[k], trial, k, r.files, results);
      var now := r.logs[|before.logs|];
      GroupsHonest(implementations, groups, trial, k, before, results);
      GroupsKeep(implementations, groups, trial, k, before, results);
      assert r.logs == before.logs + [now];
      if Reportable(groups[k]) {
        CleanYet(groups, trial, k, r);
        RatesIncrease(groups, k);
        RatesHonest(implementations, groups[k], trial, k, |groups[k].rates|, r.files, results);
      }
      HonestMore(before.logs, now, s.attempts, groups, implementations, results);
    }
  }

  /** With nothing listed twice, what is recorded of every run of every trial is
      that run's own result. */
  lemma {:induction false} TrialsHonest(implementations: seq<string>, groups: seq<Group>, runs: nat, results: Results)
    requires GroupsOk(groups) && Distinct(implementations)
    ensures AllHonest(AfterTrials(implementations, groups, runs, results).logs, groups, implementations, results)
  {
    hide RecordOk, Elements, Distinct, GroupsOk, AfterGroups, Honest;
    if runs > 0 {
      TrialsHonest(implementations, groups, runs - 1, results);
      TrialsKeep(implementations, groups, runs - 1, results);
      GroupsHonest(implementations, groups, runs, |groups|, AfterTrials(implementations, groups, runs - 1, results),
                   results);
    }
  }

  // ------------------------------------------------------ what the summary tells

  /** Every report tells the rates of its tier apart: those up to the reported
      one are those whose runs always succeeded, and are those with exactly one
      valid row for each trial. */
  ghost predicate Tells(rows: seq<Row>, groups: seq<Group>, logs: seq<seq<Attempts>>) {
    forall r, k, i :: IsReport(rows, r, |logs|) && 0 <= k < |groups| && r.key == KeyOf(groups[k], r.key.server)
                      && 0 <= i < |groups[k].rates| ==>
      TellsRate(rows, groups, logs, r, k, i)
  }

  ghost predicate TellsRate(rows: seq<Row>, groups: seq<Group>, logs: seq<seq<Attempts>>, r: Report, k: nat, i: nat)
    requires k < |groups| && i < |groups[k].rates|
  {
    && (AlwaysSucceeded(logs, k, r.key.server, i) <==> r.highest.UpTo? && groups[k].rates[i] <= r.highest.rate)
    && (AlwaysSucceeded(logs, k, r.key.server, i) <==> Sustained(rows, r.key, groups[k].rates[i], |logs|))
  }

  /** A rate counts as sustained exactly if its run succeeded in every trial. */
  lemma SustainedMeans(rows: seq<Row>, groups: seq<Group>, logs: seq<seq<Attempts>>, k: nat, server: string, i: nat)
    requires AllTell(rows, groups, logs) && k < |groups| && Reportable(groups[k]) && i < |groups[k].rates|
    ensures Sustained(rows, KeyOf(groups[k], server), groups[k].rates[i], |logs|)
       <==> AlwaysSucceeded(logs, k, server, i)
  {
    hide AlwaysSucceeded;
    AlwaysIsEveryTime(logs, k, server, i);
    TimesAtMost(logs, k, server, i);
    assert Ran(rows, groups[k], server, i) == TimesYielded(logs, k, server, i);
  }

  lemma LowerSucceeded(a: Attempts, all: set<string>, n: nat, server: string, j: nat)
    requires RunsMade(a, all, n, all) && Succeeded(a, server, j)
    ensures SucceededBelow(a, server, j)
  {
    assert (server, j) in a;
  }

  /** Succeeding always at a rate means succeeding always at every lower one. */
  lemma LowerToo(logs: seq<seq<Attempts>>, groups: seq<Group>, all: set<string>, k: nat, server: string, i: nat, j: nat)
    requires AllSwept(logs, groups, all) && k < |groups| && i < j
    requires AlwaysSucceeded(logs, k, server, j)
    ensures AlwaysSucceeded(logs, k, server, i)
  {
    forall t | 0 <= t < |logs| ensures Succeeded(logs[t][k], server, i) {
      assert Succeeded(logs[t][k], server, j);
      LowerSucceeded(logs[t][k], all, |groups[k].rates|, server, j);
    }
  }

  /** A sustained rate of a tier is one of the rates swept in it. */
  lemma SustainedIsSwept(r: Record, groups: seq<Group>, k: nat, server: string, rate: real)
    requires GroupsOk(groups) && k < |groups| && Reportable(groups[k])
    requires forall n :: n in r.paths ==> OfSome(n, groups)
    requires Sustained(Combine(r.paths, r.files), KeyOf(groups[k], server), rate, |r.logs|) && |r.logs| > 0
    ensures rate in groups[k].rates
  {
    var rows := Combine(r.paths, r.files);
    SustainedIsARate(rows, KeyOf(groups[k], server), rate, |r.logs|);
    var row :| row in rows && row.key == KeyOf(groups[k], server) && row.rate == rate;
    var m :| 0 <= m < |r.paths| && RowOf(r.paths[m], r.files) == row;
    assert r.paths[m] in r.paths;
    var j :| 0 <= j < |groups| && IsOf(r.paths[m], groups[j], r.paths[m].trial);
    assert SameTier(groups[j], groups[k]) && Reportable(groups[j]);
  }

  /** The file belongs to some group. */
  ghost predicate OfSome(n: Name, groups: seq<Group>) {
    exists j :: 0 <= j < |groups| && IsOf(n, groups[j], n.trial)
  }

  lemma {:induction false} GroupsOfSome(implementations: seq<string>, groups: seq<Group>, trial: nat, n: nat,
                                        before: Record,
                                        results: Results)
    requires n <= |groups| && forall m :: m in before.paths ==> OfSome(m, groups)
    ensures forall m :: m in AfterGroups(implementations, groups, trial, n, before, results).paths ==> OfSome(m, groups)
  {
    hide AfterRates, IsOf;
    if n > 0 {
      GroupsOfSome(implementations, groups, trial, n - 1, before, results);
      var r := AfterGroups(implementations, groups, trial, n - 1, before, results);
      var s := AfterGroup(implementations, groups[n - 1], trial, n - 1, r.files, results);
      GroupConfined(implementations, groups[n - 1], trial, n - 1, |groups[n - 1].rates|, r.files, results);
      forall m | m in s.paths ensures OfSome(m, groups) {
        IsOfOwnTrial(m, groups[n - 1], trial);
      }
    }
  }

  lemma IsOfOwnTrial(n: Name, g: Group, trial: nat)
    requires IsOf(n, g, trial)
    ensures IsOf(n, g, n.trial)
  {
  }

  lemma {:induction false} TrialsOfSome(implementations: seq<string>, groups: seq<Group>, runs: nat, results: Results)
    ensures forall m :: m in AfterTrials(implementations, groups, runs, results).paths ==> OfSome(m, groups)
  {
    hide OfSome, AfterGroups;
    if runs > 0 {
      TrialsOfSome(implementations, groups, runs - 1, results);
      GroupsOfSome(implementations, groups, runs, |groups|, AfterTrials(implementations, groups, runs - 1, results),
                   results);
    }
  }

  /** One rate of one report, when nothing is listed twice. */
  lemma RateTold(implementations: seq<string>, groups: seq<Group>, runs: nat, results: Results, r: Report, k: nat,
                 i: nat)
    requires GroupsOk(groups) && Distinct(implementations) && runs > 0
    requires k < |groups| && Reportable(groups[k]) && i < |groups[k].rates| && r.key == KeyOf(groups[k], r.key.server)
    requires IsReport(RowsOf(implementations, groups, runs, results), r, runs)
    ensures TellsRate(RowsOf(implementations, groups, runs, results), groups,
                      AfterTrials(implementations, groups, runs, results).logs, r, k, i)
  {
    hide GroupsOk, Distinct, AllTell, AllSwept, NamesEarlier, Elements, AfterTrials, Sustained;
    hide AlwaysSucceeded, Combine, OfSome;
    var t := AfterTrials(implementations, groups, runs, results);
    var rows := RowsOf(implementations, groups, runs, results);
    TrialsKeep(implementations, groups, runs, results);
    TrialsOfSome(implementations, groups, runs, results);
    SustainedMeans(rows, groups, t.logs, k, r.key.server, i);
    if r.highest.UpTo? {
      SustainedIsSwept(t, groups, k, r.key.server, r.highest.rate);
      var j :| 0 <= j < |groups[k].rates| && groups[k].rates[j] == r.highest.rate;
      SustainedMeans(rows, groups, t.logs, k, r.key.server, j);
      RatesIncrease(groups, k);
      if i < j {
        LowerToo(t.logs, groups, Elements(implementations), k, r.key.server, i, j);
      }
    }
  }
}
