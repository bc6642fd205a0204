// Repository operations run through a shared transaction source: what a commit makes of the
// table, and what a rollback leaves.

module CommitTheorems {
  import opened Results
  import opened Values
  import opened Compiler
  import opened Entity
  import opened Repository
  import opened SqlLexer
  import opened SqlSemantics
  import opened SqlStatements
  import opened SelectProofs
  import opened Stores
  import opened RepositoryRuns
  import opened RepositoryTheorems
  import RunTheorems
  import Shared = Transaction

  // ----- The statements of a run -----

  /** The statement an operation sends, unless it is refused before. */
  function Compiled(m: EntityMapping, op: Operation): Result<PgCompiledQuery> {
    match op
    case Insert(e, returning) => InsertStatement(m, e, returning)
    case Replace(e, returning) => ReplaceStatement(m, e, returning)
    case Remove(id) => RemoveStatement(m, id)
    case Get(id) => GetStatement(m, id)
    case Find(params) => FindStatement(m, params)
    case Count(params) => CountStatement(m, params)
  }

  predicate Writing(op: Operation) {
    op.Insert? || op.Replace? || op.Remove?
  }

  /** Whether the server accepts the statement on the table as the transaction sees it. */
  predicate Accepts(server: Server, m: EntityMapping, op: Operation, defaults: Row, table: Table) {
    Writing(op) ==> Sent(server, Compiled(m, op), defaults, table).Applied?
  }

  /** One statement sent, whether it was accepted, and the defaults it met. */
  datatype Call = Call(statement: PgCompiledQuery, ok: bool, defaults: Row)

  function CallsOf(server: Server, m: EntityMapping, op: Operation, defaults: Row, table: Table): seq<Call> {
    match Compiled(m, op)
    case Err(_) => []
    case Ok(q) => [Call(q, Accepts(server, m, op, defaults, table), defaults)]
  }

  /** The calls of the first `n` operations of a run. */
  function Calls(
    server: Server, m: EntityMapping, ops: seq<Operation>, defaults: seq<Row>, tables: seq<Table>, n: nat)
    : seq<Call>
    requires n <= |ops| && n <= |defaults| && n <= |tables|
    decreases n
  {
    if n == 0 then []
    else Calls(server, m, ops, defaults, tables, n - 1) + CallsOf(server, m, ops[n - 1], defaults[n - 1], tables[n - 1])
  }

  function AcceptedCalls(calls: seq<Call>): seq<Call> {
    if calls == [] then []
    else
      var last := calls[|calls| - 1];
      AcceptedCalls(calls[..|calls| - 1]) + if last.ok then [last] else []
  }

  function StatementsOf(calls: seq<Call>): (statements: seq<PgCompiledQuery>)
    ensures |statements| == |calls| && forall i | 0 <= i < |calls| :: statements[i] == calls[i].statement
  {
    seq(|calls|, i requires 0 <= i < |calls| => calls[i].statement)
  }

  /** Served calls that are these statements, with these answers of the server. */
  ghost predicate Issued(entries: seq<Shared.Entry>, calls: seq<Call>) {
    && |entries| == |calls|
    && forall k | 0 <= k < |calls| ::
         entries[k].request == Shared.Statement(calls[k].statement) && entries[k].ok == calls[k].ok
  }

  /** The table after these statements, each meeting the defaults it met in its transaction. */
  function Replay(server: Server, log: seq<PgCompiledQuery>, calls: seq<Call>, table: Table): Table
    requires |log| <= |calls|
    decreases |log|
  {
    if log == [] then table
    else
      var n := |log| - 1;
      var before := Replay(server, log[..n], calls, table);
      AfterWrite(before, ExecuteWrite(server, log[n].sql, BindValues(log[n].bindings), calls[n].defaults, before))
  }

  lemma {:induction false} EffectsAreAccepted(entries: seq<Shared.Entry>, calls: seq<Call>)
    requires Issued(entries, calls)
    ensures Shared.Effects(entries) == StatementsOf(AcceptedCalls(calls))
    decreases |calls|
  {
    if calls != [] {
      var n := |calls| - 1;
      EffectsAreAccepted(entries[..n], calls[..n]);
    }
  }

  // ----- Replaying a run -----

  /** Get, find and count change nothing. */
  lemma {:induction false} ReadsWriteNothing(
    server: Server, m: EntityMapping, op: Operation, binds: seq<Value>, defaults: Row, table: Table)
    requires Proper(m) && !Writing(op) && Compiled(m, op).Ok?
    ensures ExecuteWrite(server, Compiled(m, op).value.sql, binds, defaults, table).Refused?
  {
    var s := ReadStatement(m, op);
    ReadIsRefused(server, Compiled(m, op).value.sql, s, binds, defaults, table);
  }

  lemma {:induction false} ReadStatement(m: EntityMapping, op: Operation) returns (s: Statement)
    requires Proper(m) && !Writing(op) && Compiled(m, op).Ok?
    ensures ParseStatement(Lex(Compiled(m, op).value.sql)) == Some(s) && (s.Select? || s.SelectCount?)
  {
    ProperFacts(m);
    match op
    case Get(id) =>
      GetReads(m, id);
      s := ParseStatement(Lex(GetStatement(m, id).value.sql)).value;
    case Find(params) =>
      FindReads(m, params);
      s := ParseStatement(Lex(FindStatement(m, params).value.sql)).value;
    case Count(params) =>
      CountReads(m, params);
      s := ParseStatement(Lex(CountStatement(m, params).value.sql)).value;
  }

  lemma {:induction false} ReadIsRefused(
    server: Server, sql: string, s: Statement, binds: seq<Value>, defaults: Row, table: Table)
    requires ParseStatement(Lex(sql)) == Some(s) && (s.Select? || s.SelectCount?)
    ensures ExecuteWrite(server, sql, binds, defaults, table).Refused?
  {
  }

  /** The table after an operation's call, if it made one that was accepted. */
  function AfterCall(server: Server, calls: seq<Call>, table: Table): Table {
    if calls == [] || !calls[0].ok then table
    else
      AfterWrite(table, ExecuteWrite(server, calls[0].statement.sql, BindValues(calls[0].statement.bindings),
                                     calls[0].defaults, table))
  }

  /** One operation leaves the table its accepted statement, if any, leaves. */
  lemma {:induction false} StepReplays(
    server: Server, m: EntityMapping, op: Operation, defaults: Row, table: Table, outcome: Outcome, after: Table)
    requires Proper(m) && Runs(server, m, op, defaults, table, outcome, after)
    ensures after == AfterCall(server, CallsOf(server, m, op, defaults, table), table)
  {
    if !Writing(op) && Compiled(m, op).Ok? {
      var q := Compiled(m, op).value;
      ReadsWriteNothing(server, m, op, BindValues(q.bindings), defaults, table);
    }
  }

  lemma {:induction false} AcceptedAppend(calls: seq<Call>, more: seq<Call>)
    requires |more| <= 1
    ensures AcceptedCalls(calls + more) == AcceptedCalls(calls) + if more != [] && more[0].ok then more else []
  {
    if more == [] {
      assert calls + more == calls;
    } else {
      assert (calls + more)[..|calls + more| - 1] == calls && more == [more[0]];
    }
  }

  lemma {:induction false} ReplayPrefix(
    server: Server, log: seq<PgCompiledQuery>, calls: seq<Call>, more: seq<Call>, table: Table)
    requires |log| <= |calls|
    ensures Replay(server, log, calls + more, table) == Replay(server, log, calls, table)
    decreases |log|
  {
    if log != [] {
      ReplayPrefix(server, log[..|log| - 1], calls, more, table);
    }
  }

  lemma {:induction false} ReplayNext(server: Server, calls: seq<Call>, call: Call, table: Table)
    ensures var before := Replay(server, StatementsOf(calls), calls, table);
            Replay(server, StatementsOf(calls + [call]), calls + [call], table)
            == AfterWrite(before, ExecuteWrite(server, call.statement.sql, BindValues(call.statement.bindings),
                                               call.defaults, before))
  {
    var log := StatementsOf(calls + [call]);
    assert log[..|calls|] == StatementsOf(calls);
    ReplayPrefix(server, StatementsOf(calls), calls, [call], table);
  }

  lemma {:induction false} CallReplays(
    server: Server, accepted: seq<Call>, more: seq<Call>, next: seq<Call>, first: Table, before: Table)
    requires |more| <= 1 && Replay(server, StatementsOf(accepted), accepted, first) == before
    requires next == accepted + if more != [] && more[0].ok then more else []
    ensures Replay(server, StatementsOf(next), next, first) == AfterCall(server, more, before)
  {
    if more != [] && more[0].ok {
      assert more == [more[0]];
      ReplayNext(server, accepted, more[0], first);
    } else {
      assert accepted + [] == accepted;
    }
  }

  /** Each table is what the operation's call leaves of the one before. */
  ghost predicate Chained(
    server: Server, m: EntityMapping, ops: seq<Operation>, defaults: seq<Row>, tables: seq<Table>)
  {
    && |defaults| == |ops| && |tables| == |ops| + 1
    && forall i | 0 <= i < |ops| ::
         tables[i + 1] == AfterCall(server, CallsOf(server, m, ops[i], defaults[i], tables[i]), tables[i])
  }

  lemma {:induction false} RunIsChained(
    server: Server, m: EntityMapping, ops: seq<Operation>, defaults: seq<Row>, outcomes: seq<Outcome>, tables: seq<Table>)
    requires Proper(m) && RunTheorems.IsRun(server, m, ops, defaults, outcomes, tables)
    ensures Chained(server, m, ops, defaults, tables)
  {
    forall i | 0 <= i < |ops|
      ensures tables[i + 1] == AfterCall(server, CallsOf(server, m, ops[i], defaults[i], tables[i]), tables[i])
    {
      StepReplays(server, m, ops[i], defaults[i], tables[i], outcomes[i], tables[i + 1]);
    }
  }

  /** Replaying the accepted statements of a run gives the table the run ends with. */
  lemma {:induction false} RunReplays(
    server: Server, m: EntityMapping, ops: seq<Operation>, defaults: seq<Row>, tables: seq<Table>, n: nat)
    requires Chained(server, m, ops, defaults, tables) && n <= |ops|
    ensures var accepted := AcceptedCalls(Calls(server, m, ops, defaults, tables, n));
            Replay(server, StatementsOf(accepted), accepted, tables[0]) == tables[n]
    decreases n
  {
    if n > 0 {
      var accepted, more, next := LastCall(server, m, ops, defaults, tables, n);
      RunReplays(server, m, ops, defaults, tables, n - 1);
      CallReplays(server, accepted, more, next, tables[0], tables[n - 1]);
    }
  }

  lemma {:induction false} LastCall(
    server: Server, m: EntityMapping, ops: seq<Operation>, defaults: seq<Row>, tables: seq<Table>, n: nat)
    returns (accepted: seq<Call>, more: seq<Call>, next: seq<Call>)
    requires Chained(server, m, ops, defaults, tables) && 0 < n <= |ops|
    ensures AcceptedCalls(Calls(server, m, ops, defaults, tables, n - 1)) == accepted && |more| <= 1
    ensures AcceptedCalls(Calls(server, m, ops, defaults, tables, n)) == next
    ensures next == accepted + if more != [] && more[0].ok then more else []
    ensures tables[n] == AfterCall(server, more, tables[n - 1])
  {
    var calls := Calls(server, m, ops, defaults, tables, n - 1);
    more := CallsOf(server, m, ops[n - 1], defaults[n - 1], tables[n - 1]);
    accepted := AcceptedCalls(calls);
    next := AcceptedCalls(calls + more);
    AcceptedAppend(calls, more);
  }

  // ----- Commit and rollback -----

  /** What is published when a transaction issued these calls before its first finisher. */
  lemma {:induction false} PublishedCalls(
    run: seq<Shared.Machine>, events: seq<Shared.Event>, callers: nat, k: nat, t: nat, calls: seq<Call>)
    requires Shared.IsRun(run, events, callers) && k < |run| && t < |run[k].history|
    requires Shared.Finishes(run[k].history[t]) && Issued(run[k].history[..t], calls)
    ensures t < |run[k].replies|
    ensures run[k].published
         == if run[k].history[t].request.Commit? && run[k].replies[t] == Some(Shared.Succeeded)
            then StatementsOf(AcceptedCalls(calls)) else []
  {
    var history := run[k].history;
    EffectsAreAccepted(history[..t], calls);
    forall j | 0 <= j < t ensures !Shared.Finishes(history[j]) {
      assert history[..t][j].request == Shared.Statement(calls[j].statement);
    }
    Shared.OutcomeOfARun(run, events, callers, k);
    assert Shared.FirstFinisher(run[k], t);
  }

  /**
   * Repository operations whose statements are the calls a shared source served before its
   * first finisher, under any interleaving: what the source has published, replayed on the
   * table as it was before the transaction, gives the table the operations ended with if the
   * finisher is a commit that succeeded, and the table as it was otherwise.
   */
  lemma {:induction false} CommitLeavesTheRun(
    server: Server, m: EntityMapping, ops: seq<Operation>, defaults: seq<Row>, outcomes: seq<Outcome>,
    tables: seq<Table>, run: seq<Shared.Machine>, events: seq<Shared.Event>, callers: nat, k: nat, t: nat)
    requires Proper(m) && RunTheorems.IsRun(server, m, ops, defaults, outcomes, tables)
    requires Shared.IsRun(run, events, callers) && k < |run| && t < |run[k].history|
    requires Shared.Finishes(run[k].history[t])
    requires Issued(run[k].history[..t], Calls(server, m, ops, defaults, tables, |ops|))
    ensures var accepted := AcceptedCalls(Calls(server, m, ops, defaults, tables, |ops|));
            && |run[k].published| <= |accepted| && t < |run[k].replies|
            && Replay(server, run[k].published, accepted, tables[0])
               == if run[k].history[t].request.Commit? && run[k].replies[t] == Some(Shared.Succeeded)
                  then tables[|ops|] else tables[0]
  {
    PublishedCalls(run, events, callers, k, t, Calls(server, m, ops, defaults, tables, |ops|));
    RunIsChained(server, m, ops, defaults, outcomes, tables);
    RunReplays(server, m, ops, defaults, tables, |ops|);
  }
}
