// src/postgres/transaction.rs: one transaction shared by many callers behind a mutex. The
// class is the source's object, one critical section at a time; the machine interleaves
// callers, with the lock released before a commit or rollback itself runs.

module Transaction {
  import opened Results
  import opened Compiler

  /** A transaction is known by the statements that have taken effect in it. */
  datatype TransactionState = Active(log: seq<PgCompiledQuery>) | Completed

  class PgTransactionSource {
    var state: TransactionState

    /** A transaction just begun. */
    constructor ()
      ensures state == Active([])
    {
      state := Active([]);
    }

    /** Takes the transaction out, once; the source is completed either way. */
    method TakeActive() returns (r: Result<seq<PgCompiledQuery>>)
      modifies this
      ensures state == Completed
      ensures r == match old(state)
                   case Active(log) => Ok(log)
                   case Completed => Err(Infrastructure)
    {
      var taken := state;
      state := Completed;
      match taken
      case Active(log) => r := Ok(log);
      case Completed => r := Err(Infrastructure);
    }

    /** `published` is what becomes visible when the server answers `ok`. */
    method Commit(ok: bool) returns (r: Reply, published: seq<PgCompiledQuery>)
      modifies this
      ensures Serve(World(old(state), []), Entry(0, Request.Commit, ok)) == (World(state, published), r)
      ensures state == Completed && published == if old(state).Active? && ok then old(state).log else []
    {
      var taken := TakeActive();
      if taken.Err? {
        return AlreadyCompleted, [];
      }
      assert [] + taken.value == taken.value;
      published := if ok then taken.value else [];
      r := if ok then Succeeded else ServerFailed;
    }

    method Rollback(ok: bool) returns (r: Reply)
      modifies this
      ensures Serve(World(old(state), []), Entry(0, Request.Rollback, ok)) == (World(state, []), r)
      ensures state == Completed
    {
      var taken := TakeActive();
      if taken.Err? {
        return AlreadyCompleted;
      }
      r := if ok then Succeeded else ServerFailed;
    }

    /** Any of the five operations; `ok` is the server's answer to the statement. */
    method Run(statement: PgCompiledQuery, ok: bool) returns (r: Reply)
      modifies this
      ensures Serve(World(old(state), []), Entry(0, Statement(statement), ok)) == (World(state, []), r)
      ensures state == if old(state).Active? && ok then Active(old(state).log + [statement]) else old(state)
    {
      match state
      case Active(log) =>
        if ok {
          state := Active(log + [statement]);
        }
        r := if ok then Succeeded else ServerFailed;
      case Completed =>
        r := AlreadyCompleted;
    }
  }

  // ----- Serial runs -----

  datatype Request = Statement(statement: PgCompiledQuery) | Commit | Rollback

  datatype Reply = Succeeded | ServerFailed | AlreadyCompleted

  /** One call as served, with the server's answer in case the call reached the server. */
  datatype Entry = Entry(caller: nat, request: Request, ok: bool)

  /** The source, and what it has made visible to the rest of the database. */
  datatype World = World(source: TransactionState, published: seq<PgCompiledQuery>)

  function Serve(w: World, e: Entry): (World, Reply) {
    match w.source
    case Completed => (w, AlreadyCompleted)
    case Active(log) =>
      var reply := if e.ok then Succeeded else ServerFailed;
      match e.request
      case Statement(s) => (World(Active(if e.ok then log + [s] else log), w.published), reply)
      case Commit => (World(Completed, if e.ok then w.published + log else w.published), reply)
      case Rollback => (World(Completed, w.published), reply)
  }

  /** Calls served one after the other from a transaction just begun. */
  function Serial(entries: seq<Entry>): World {
    if entries == [] then World(Active([]), [])
    else Serve(Serial(entries[..|entries| - 1]), entries[|entries| - 1]).0
  }

  function ReplyTo(entries: seq<Entry>, k: nat): Reply
    requires k < |entries|
  {
    Serve(Serial(entries[..k]), entries[k]).1
  }

  lemma {:induction false} SerialNext(entries: seq<Entry>, e: Entry)
    ensures Serial(entries + [e]) == Serve(Serial(entries), e).0
    ensures ReplyTo(entries + [e], |entries|) == Serve(Serial(entries), e).1
    ensures forall k | 0 <= k < |entries| :: ReplyTo(entries + [e], k) == ReplyTo(entries, k)
  {
    var all := entries + [e];
    assert all[..|all| - 1] == entries;
    forall k | 0 <= k < |entries| ensures ReplyTo(all, k) == ReplyTo(entries, k) {
      assert all[..k] == entries[..k];
    }
  }

  /** Once completed, nothing changes any more. */
  lemma {:induction false} CompletedStays(entries: seq<Entry>, k: nat)
    requires k <= |entries| && Serial(entries[..k]).source.Completed?
    ensures Serial(entries) == Serial(entries[..k])
    ensures forall j | k <= j < |entries| :: ReplyTo(entries, j) == AlreadyCompleted
    decreases |entries|
  {
    if k == |entries| {
      assert entries[..k] == entries;
    } else {
      var before := entries[..|entries| - 1];
      assert before[..k] == entries[..k];
      CompletedStays(before, k);
      forall j | k <= j < |entries| ensures ReplyTo(entries, j) == AlreadyCompleted {
        if j < |before| {
          assert entries[..j] == before[..j];
          assert ReplyTo(before, j) == AlreadyCompleted;
        }
      }
    }
  }

  /** The statements that took effect, in order. */
  function Effects(entries: seq<Entry>): seq<PgCompiledQuery> {
    if entries == [] then []
    else
      var last := entries[|entries| - 1];
      Effects(entries[..|entries| - 1]) + (if last.request.Statement? && last.ok then [last.request.statement] else [])
  }

  predicate Finishes(e: Entry) {
    !e.request.Statement?
  }

  /** While nobody has finished, the source holds exactly the effects so far. */
  lemma {:induction false} ActiveHoldsEffects(entries: seq<Entry>)
    requires forall e | e in entries :: !Finishes(e)
    ensures Serial(entries) == World(Active(Effects(entries)), [])
    decreases |entries|
  {
    if entries != [] {
      var before := entries[..|entries| - 1];
      var last := entries[|entries| - 1];
      assert entries == before + [last] && last in entries;
      ActiveHoldsEffects(before);
      assert Effects(before) + [] == Effects(before);
    }
  }

  /**
   * What a serial run publishes: the effects before the first finisher if that was a commit
   * the server accepted, and nothing otherwise; every call after it is refused.
   */
  lemma {:induction false} SerialPublishes(entries: seq<Entry>, t: nat)
    requires t < |entries| && Finishes(entries[t]) && forall k | 0 <= k < t :: !Finishes(entries[k])
    ensures Serial(entries)
         == World(Completed, if entries[t].request.Commit? && entries[t].ok then Effects(entries[..t]) else [])
    ensures forall k | 0 <= k <= t :: ReplyTo(entries, k) != AlreadyCompleted
    ensures forall k | t < k < |entries| :: ReplyTo(entries, k) == AlreadyCompleted
  {
    ActiveHoldsEffects(entries[..t]);
    SerialNext(entries[..t], entries[t]);
    assert entries[..t + 1] == entries[..t] + [entries[t]];
    CompletedStays(entries, t + 1);
    forall k | 0 <= k < t ensures ReplyTo(entries, k) != AlreadyCompleted {
      ActiveHoldsEffects(entries[..k]);
    }
  }

  // ----- The machine -----

  datatype Caller =
    | Idle
    | Waiting(request: Request)
    | Holding(request: Request)
    | Running(statement: PgCompiledQuery)
    | Finishing(request: Request, log: seq<PgCompiledQuery>)

  /**
   * The shared source with its callers. `history` lists the calls in the order of their
   * critical sections; `replies` what they were told, nothing yet for a call at `pending`
   * whose commit or rollback is still under way; `consumed` counts transactions used up.
   */
  datatype Machine = Machine(
    callers: seq<Caller>,
    lock: Option<nat>,
    source: TransactionState,
    published: seq<PgCompiledQuery>,
    history: seq<Entry>,
    replies: seq<Option<Reply>>,
    pending: Option<nat>,
    consumed: nat)

  function Begun(callers: nat): Machine {
    Machine(seq(callers, _ => Idle), None, Active([]), [], [], [], None, 0)
  }

  /** The state after caller `i` has left its critical section, told `reply`, if anything yet. */
  function Left(m: Machine, i: nat, next: Caller, e: Entry, reply: Option<Reply>): Machine
    requires i < |m.callers|
  {
    m.(callers := m.callers[i := next], lock := None, history := m.history + [e], replies := m.replies + [reply])
  }

  /** A caller asks for a statement, a commit or a rollback, and waits for the lock. */
  ghost predicate Asks(m: Machine, i: nat, request: Request, n: Machine) {
    i < |m.callers| && m.callers[i].Idle? && n == m.(callers := m.callers[i := Waiting(request)])
  }

  ghost predicate Acquires(m: Machine, i: nat, n: Machine) {
    && i < |m.callers| && m.callers[i].Waiting? && m.lock.None?
    && n == m.(callers := m.callers[i := Holding(m.callers[i].request)], lock := Some(i))
  }

  /** The statement goes to the connection; the lock stays taken. */
  ghost predicate Starts(m: Machine, i: nat, n: Machine) {
    && i < |m.callers| && m.callers[i].Holding? && m.callers[i].request.Statement? && m.source.Active?
    && n == m.(callers := m.callers[i := Running(m.callers[i].request.statement)])
  }

  /** The server has answered: the effect, if any, is the transaction's, and the lock is released. */
  ghost predicate Ends(m: Machine, i: nat, ok: bool, n: Machine) {
    && i < |m.callers| && m.callers[i].Running?
    && var s := m.callers[i].statement;
       && (ok ==> m.source.Active?)
       && n == Left(m.(source := if ok then Active(m.source.log + [s]) else m.source), i, Idle,
                    Entry(i, Statement(s), ok), Some(if ok then Succeeded else ServerFailed))
  }

  /** Any request that finds the source completed. */
  ghost predicate Refused(m: Machine, i: nat, n: Machine) {
    && i < |m.callers| && m.callers[i].Holding? && m.source.Completed?
    && n == Left(m, i, Idle, Entry(i, m.callers[i].request, false), Some(AlreadyCompleted))
  }

  /** `take_active`: the lock is gone before the commit or rollback itself begins. */
  ghost predicate Takes(m: Machine, i: nat, n: Machine) {
    && i < |m.callers| && m.callers[i].Holding? && !m.callers[i].request.Statement? && m.source.Active?
    && n == Left(m.(source := Completed, pending := Some(|m.history|)), i,
                 Finishing(m.callers[i].request, m.source.log), Entry(i, m.callers[i].request, false), None)
  }

  /** The commit or rollback is over, without the lock: only now is anything published. */
  ghost predicate Finished(m: Machine, i: nat, ok: bool, n: Machine) {
    && i < |m.callers| && m.callers[i].Finishing?
    && m.pending.Some? && m.pending.value < |m.history| && m.pending.value < |m.replies|
    && var t := m.pending.value;
       n == m.(callers := m.callers[i := Idle],
               published := if ok && m.callers[i].request.Commit? then m.published + m.callers[i].log else m.published,
               history := m.history[t := m.history[t].(ok := ok)],
               replies := m.replies[t := Some(if ok then Succeeded else ServerFailed)],
               pending := None, consumed := m.consumed + 1)
  }

  datatype Event =
    | Ask(i: nat, request: Request)
    | Acquire(i: nat)
    | Start(i: nat)
    | End(i: nat, ok: bool)
    | Refuse(i: nat)
    | Take(i: nat)
    | Finish(i: nat, ok: bool)

  ghost predicate Step(m: Machine, event: Event, n: Machine) {
    match event
    case Ask(i, request) => Asks(m, i, request, n)
    case Acquire(i) => Acquires(m, i, n)
    case Start(i) => Starts(m, i, n)
    case End(i, ok) => Ends(m, i, ok, n)
    case Refuse(i) => Refused(m, i, n)
    case Take(i) => Takes(m, i, n)
    case Finish(i, ok) => Finished(m, i, ok, n)
  }

  // ----- What every run keeps -----

  predicate Inside(c: Caller) {
    c.Holding? || c.Running?
  }

  /** The lock is held exactly by the caller in its critical section; statements run only on an active source. */
  ghost predicate Exclusive(m: Machine) {
    && (forall i | 0 <= i < |m.callers| :: Inside(m.callers[i]) <==> m.lock == Some(i))
    && forall i | 0 <= i < |m.callers| :: m.callers[i].Running? ==> m.source.Active?
  }

  /** The transaction is in the source, or with exactly one finisher, or used up; never two of these, never lost. */
  ghost predicate Conserved(m: Machine) {
    && (m.source.Active? ==> m.pending.None? && m.consumed == 0)
    && (m.source.Completed? ==> m.consumed == if m.pending.Some? then 0 else 1)
    && (m.pending.Some? <==> exists i :: 0 <= i < |m.callers| && m.callers[i].Finishing?)
    && forall i, j | 0 <= i < |m.callers| && 0 <= j < |m.callers| && m.callers[i].Finishing? && m.callers[j].Finishing?
         :: i == j
  }

  /** The run so far is the serial run of its history, in the order of the critical sections. */
  ghost predicate LikeSerial(m: Machine) {
    && |m.replies| == |m.history|
    && Serial(m.history) == World(m.source, m.published)
    && (forall k | 0 <= k < |m.history| && m.pending != Some(k) :: m.replies[k] == Some(ReplyTo(m.history, k)))
    && (m.pending.Some? ==>
          var t := m.pending.value;
          && t < |m.history| && Finishes(m.history[t]) && !m.history[t].ok && m.replies[t].None?
          && Serial(m.history[..t]).source.Active? && m.published == Serial(m.history[..t]).published
          && forall i | 0 <= i < |m.callers| && m.callers[i].Finishing? ::
               m.callers[i].request == m.history[t].request && m.callers[i].log == Serial(m.history[..t]).source.log)
  }

  ghost predicate Invariant(m: Machine) {
    Exclusive(m) && Conserved(m) && LikeSerial(m)
  }

  lemma {:induction false} BegunKeeps(callers: nat)
    ensures Invariant(Begun(callers))
  {
  }

  /** A call that leaves its critical section extends the serial run. */
  lemma {:induction false} LeavingExtends(m: Machine, e: Entry, reply: Reply, w: World)
    requires LikeSerial(m) && Serve(World(m.source, m.published), e) == (w, reply)
    ensures Serial(m.history + [e]) == w
    ensures forall k | 0 <= k < |m.history| && m.pending != Some(k) ::
              m.replies[k] == Some(ReplyTo(m.history + [e], k))
    ensures ReplyTo(m.history + [e], |m.history|) == reply
    ensures m.pending.Some? ==> (m.history + [e])[..m.pending.value] == m.history[..m.pending.value]
  {
    SerialNext(m.history, e);
  }

  lemma {:induction false} EndsKeeps(m: Machine, i: nat, ok: bool, n: Machine)
    requires Invariant(m) && Ends(m, i, ok, n)
    ensures Invariant(n)
  {
    var e := Entry(i, Statement(m.callers[i].statement), ok);
    LeavingExtends(m, e, if ok then Succeeded else ServerFailed, World(n.source, n.published));
  }

  lemma {:induction false} RefusedKeeps(m: Machine, i: nat, n: Machine)
    requires Invariant(m) && Refused(m, i, n)
    ensures Invariant(n)
  {
    LeavingExtends(m, Entry(i, m.callers[i].request, false), AlreadyCompleted, World(m.source, m.published));
  }

  lemma {:induction false} TakesKeeps(m: Machine, i: nat, n: Machine)
    requires Invariant(m) && Takes(m, i, n)
    ensures Invariant(n)
  {
    LeavingExtends(m, Entry(i, m.callers[i].request, false), ServerFailed, World(Completed, m.published));
    assert n.history[..|m.history|] == m.history;
    assert n.callers[i].Finishing?;
  }

  /** Learning the server's answer to a commit afterwards changes only what is published. */
  lemma {:induction false} AnswerLater(history: seq<Entry>, t: nat, ok: bool)
    requires t < |history| && Finishes(history[t]) && Serial(history[..t]).source.Active?
    ensures var later := history[t := history[t].(ok := ok)];
            var before := Serial(history[..t]);
            && Serial(later) == World(Completed, if ok && history[t].request.Commit? then before.published + before.source.log
                                                 else before.published)
            && ReplyTo(later, t) == (if ok then Succeeded else ServerFailed)
            && forall k | 0 <= k < |history| && k != t :: ReplyTo(later, k) == ReplyTo(history, k)
  {
    var later := history[t := history[t].(ok := ok)];
    TakenThere(history, t);
    assert later[..t] == history[..t];
    TakenThere(later, t);
    forall k | 0 <= k < t ensures ReplyTo(later, k) == ReplyTo(history, k) {
      assert later[..k] == history[..k];
    }
  }

  lemma {:induction false} TakenThere(history: seq<Entry>, t: nat)
    requires t < |history| && Finishes(history[t]) && Serial(history[..t]).source.Active?
    ensures Serial(history) == Serve(Serial(history[..t]), history[t]).0
    ensures forall k | t < k < |history| :: ReplyTo(history, k) == AlreadyCompleted
  {
    SerialNext(history[..t], history[t]);
    assert history[..t + 1] == history[..t] + [history[t]];
    CompletedStays(history, t + 1);
  }

  lemma {:induction false} FinishedKeeps(m: Machine, i: nat, ok: bool, n: Machine)
    requires Invariant(m) && Finished(m, i, ok, n)
    ensures Invariant(n)
  {
    AnswerLater(m.history, m.pending.value, ok);
    TakenThere(m.history, m.pending.value);
  }

  lemma {:induction false} WaitingKeeps(m: Machine, i: nat, request: Request, n: Machine)
    requires Invariant(m) && (Asks(m, i, request, n) || Acquires(m, i, n) || Starts(m, i, n))
    ensures Invariant(n)
  {
    assert forall j | 0 <= j < |m.callers| && m.callers[j].Finishing? :: n.callers[j] == m.callers[j];
    assert forall j | 0 <= j < |m.callers| && n.callers[j].Finishing? :: n.callers[j] == m.callers[j];
  }

  lemma {:induction false} StepKeeps(m: Machine, event: Event, n: Machine)
    requires Invariant(m) && Step(m, event, n)
    ensures Invariant(n)
  {
    match event
    case Ask(i, request) => WaitingKeeps(m, i, request, n);
    case Acquire(i) => WaitingKeeps(m, i, Commit, n);
    case Start(i) => WaitingKeeps(m, i, Commit, n);
    case End(i, ok) => EndsKeeps(m, i, ok, n);
    case Refuse(i) => RefusedKeeps(m, i, n);
    case Take(i) => TakesKeeps(m, i, n);
    case Finish(i, ok) => FinishedKeeps(m, i, ok, n);
  }

  // ----- Runs -----

  ghost predicate IsRun(run: seq<Machine>, events: seq<Event>, callers: nat) {
    && |run| == |events| + 1 && run[0] == Begun(callers)
    && forall k | 0 <= k < |events| :: Step(run[k], events[k], run[k + 1])
  }

  /** Over every interleaving: exclusion, conservation, and equality with the serial run in lock order. */
  lemma {:induction false} RunsKeep(run: seq<Machine>, events: seq<Event>, callers: nat)
    requires IsRun(run, events, callers)
    ensures forall k | 0 <= k < |run| :: Invariant(run[k])
  {
    BegunKeeps(callers);
    for k := 0 to |events|
      invariant forall j | 0 <= j <= k :: Invariant(run[j])
    {
      StepKeeps(run[k], events[k], run[k + 1]);
    }
  }

  lemma {:induction false} StaysTaken(m: Machine, event: Event, n: Machine)
    requires Invariant(m) && Step(m, event, n) && m.source.Completed?
    ensures n.source.Completed? && !event.Start? && !event.End? && !event.Take?
  {
  }

  /** Once the transaction is taken no statement runs any more, even while the commit does. */
  lemma {:induction false} NothingRunsAfterTaking(run: seq<Machine>, events: seq<Event>, callers: nat, a: nat, b: nat)
    requires IsRun(run, events, callers) && a <= b < |run| && run[a].source.Completed?
    ensures run[b].source.Completed?
    ensures forall i | 0 <= i < |run[b].callers| :: !run[b].callers[i].Running?
    ensures forall k | a <= k < b :: !events[k].Start? && !events[k].End? && !events[k].Take?
  {
    RunsKeep(run, events, callers);
    for k := a to b
      invariant run[k].source.Completed?
      invariant forall j | a <= j < k :: !events[j].Start? && !events[j].End? && !events[j].Take?
    {
      StaysTaken(run[k], events[k], run[k + 1]);
    }
    assert Exclusive(run[b]);
  }

  /** What the run looks like around its first finisher, the call at `t`. */
  ghost predicate FirstFinisher(m: Machine, t: nat)
    requires |m.replies| == |m.history| && t < |m.history|
  {
    && m.source == Completed
    && m.published == (if m.replies[t] == Some(Succeeded) && m.history[t].request.Commit?
                       then Effects(m.history[..t]) else [])
    && (forall j | 0 <= j < t :: m.replies[j] == Some(Succeeded) || m.replies[j] == Some(ServerFailed))
    && m.replies[t] != Some(AlreadyCompleted)
    && forall j | t < j < |m.history| :: m.replies[j] == Some(AlreadyCompleted)
  }

  /**
   * The outcome of any interleaving, in lock order. Until somebody finishes, every effect is
   * held back. After the first finisher: it alone took the transaction; what is published is
   * exactly the effects before it, if it was a commit that succeeded; calls before it were
   * served and calls after it were refused.
   */
  lemma {:induction false} OutcomeOfARun(run: seq<Machine>, events: seq<Event>, callers: nat, k: nat)
    requires IsRun(run, events, callers) && k < |run|
    ensures var m := run[k];
            (forall e | e in m.history :: !Finishes(e)) ==>
              m.source == Active(Effects(m.history)) && m.published == []
    ensures var m := run[k];
            && |m.replies| == |m.history|
            && forall t | 0 <= t < |m.history| && Finishes(m.history[t])
                          && (forall j | 0 <= j < t :: !Finishes(m.history[j])) :: FirstFinisher(m, t)
  {
    RunsKeep(run, events, callers);
    var m := run[k];
    if forall e | e in m.history :: !Finishes(e) {
      ActiveHoldsEffects(m.history);
    }
    forall t | 0 <= t < |m.history| && Finishes(m.history[t]) && (forall j | 0 <= j < t :: !Finishes(m.history[j]))
      ensures FirstFinisher(m, t)
    {
      FirstFinisherTook(m, t);
    }
  }

  lemma {:induction false} FirstFinisherTook(m: Machine, t: nat)
    requires Invariant(m) && t < |m.history| && Finishes(m.history[t])
    requires forall j | 0 <= j < t :: !Finishes(m.history[j])
    ensures FirstFinisher(m, t)
  {
    SerialPublishes(m.history, t);
    ActiveHoldsEffects(m.history[..t]);
    SerialNext(m.history[..t], m.history[t]);
    if m.pending.Some? && m.pending.value != t {
      var p := m.pending.value;
      if p > t {
        assert m.history[..p][..t + 1] == m.history[..t] + [m.history[t]];
        CompletedStays(m.history[..p], t + 1);
        assert false;
      }
    }
  }

  // ----- Nobody waits for ever -----

  ghost predicate Enabled(m: Machine, event: Event) {
    exists n :: Step(m, event, n)
  }

  ghost predicate HeldByACaller(m: Machine) {
    m.lock.Some? ==> m.lock.value < |m.callers|
  }

  lemma {:induction false} RunsHoldTheLock(run: seq<Machine>, events: seq<Event>, callers: nat)
    requires IsRun(run, events, callers)
    ensures forall k | 0 <= k < |run| :: HeldByACaller(run[k]) && |run[k].callers| == callers
  {
    for k := 0 to |events|
      invariant forall j | 0 <= j <= k :: HeldByACaller(run[j]) && |run[j].callers| == callers
    {
      assert Step(run[k], events[k], run[k + 1]);
    }
  }

  /** What a caller can do next, in a state that a run reaches. */
  ghost predicate CanMove(m: Machine, i: nat)
    requires i < |m.callers|
  {
    match m.callers[i]
    case Idle => forall request :: Enabled(m, Ask(i, request))
    case Waiting(_) => m.lock.None? ==> Enabled(m, Acquire(i))
    case Holding(request) =>
      if m.source.Completed? then Enabled(m, Refuse(i))
      else if request.Statement? then Enabled(m, Start(i))
      else Enabled(m, Take(i))
    case Running(_) => forall ok :: Enabled(m, End(i, ok))
    case Finishing(_, _) => forall ok :: Enabled(m, Finish(i, ok))
  }

  lemma {:induction false} CallerCanMove(m: Machine, i: nat)
    requires Invariant(m) && i < |m.callers|
    ensures CanMove(m, i)
  {
    match m.callers[i]
    case Idle =>
      forall request ensures Enabled(m, Ask(i, request)) {
        assert Step(m, Ask(i, request), m.(callers := m.callers[i := Waiting(request)]));
      }
    case Waiting(request) =>
      if m.lock.None? {
        assert Step(m, Acquire(i), m.(callers := m.callers[i := Holding(request)], lock := Some(i)));
      }
    case Holding(request) => HolderCanMove(m, i);
    case Running(s) =>
      forall ok ensures Enabled(m, End(i, ok)) {
        var source := if ok then Active(m.source.log + [s]) else m.source;
        assert Step(m, End(i, ok), Left(m.(source := source), i, Idle, Entry(i, Statement(s), ok),
                                        Some(if ok then Succeeded else ServerFailed)));
      }
    case Finishing(_, _) => FinisherCanMove(m, i);
  }

  lemma {:induction false} HolderCanMove(m: Machine, i: nat)
    requires i < |m.callers| && m.callers[i].Holding?
    ensures CanMove(m, i)
  {
    var request := m.callers[i].request;
    if m.source.Completed? {
      assert Step(m, Refuse(i), Left(m, i, Idle, Entry(i, request, false), Some(AlreadyCompleted)));
    } else if request.Statement? {
      assert Step(m, Start(i), m.(callers := m.callers[i := Running(request.statement)]));
    } else {
      assert Step(m, Take(i), Left(m.(source := Completed, pending := Some(|m.history|)), i,
                                   Finishing(request, m.source.log), Entry(i, request, false), None));
    }
  }

  lemma {:induction false} FinisherCanMove(m: Machine, i: nat)
    requires Invariant(m) && i < |m.callers| && m.callers[i].Finishing?
    ensures CanMove(m, i)
  {
    var t := m.pending.value;
    forall ok ensures Enabled(m, Finish(i, ok)) {
      var n := m.(callers := m.callers[i := Idle],
                  published := if ok && m.callers[i].request.Commit? then m.published + m.callers[i].log else m.published,
                  history := m.history[t := m.history[t].(ok := ok)],
                  replies := m.replies[t := Some(if ok then Succeeded else ServerFailed)],
                  pending := None, consumed := m.consumed + 1);
      assert Step(m, Finish(i, ok), n);
    }
  }

  /** How many steps a caller's call still takes at most. */
  function Work(c: Caller): nat {
    match c
    case Idle => 0
    case Running(_) => 1
    case Finishing(_, _) => 1
    case Holding(_) => 2
    case Waiting(_) => 3
  }

  function TotalWork(callers: seq<Caller>): nat {
    if callers == [] then 0 else Work(callers[0]) + TotalWork(callers[1..])
  }

  lemma {:induction false} WorkOfOne(callers: seq<Caller>, i: nat, c: Caller)
    requires i < |callers|
    ensures TotalWork(callers[i := c]) == TotalWork(callers) - Work(callers[i]) + Work(c)
    ensures TotalWork(callers) >= Work(callers[i])
    decreases i
  {
    if i > 0 {
      WorkOfOne(callers[1..], i - 1, c);
      assert callers[i := c][1..] == callers[1..][i - 1 := c];
    } else {
      assert callers[0 := c][1..] == callers[1..];
    }
  }

  lemma {:induction false} NoWorkIsIdle(callers: seq<Caller>)
    ensures TotalWork(callers) == 0 <==> forall i | 0 <= i < |callers| :: callers[i].Idle?
    decreases |callers|
  {
    if callers != [] {
      NoWorkIsIdle(callers[1..]);
      assert forall i | 0 < i < |callers| :: callers[i] == callers[1..][i - 1];
    }
  }

  /** Every step but a new call leaves less to do. */
  lemma {:induction false} StepsWork(m: Machine, event: Event, n: Machine)
    requires Step(m, event, n) && !event.Ask?
    ensures TotalWork(n.callers) < TotalWork(m.callers)
  {
    var i := event.i;
    WorkOfOne(m.callers, i, n.callers[i]);
    assert n.callers == m.callers[i := n.callers[i]];
  }

  /** Unless everybody has been answered, some call can go on. */
  lemma {:induction false} SomeCallGoesOn(m: Machine) returns (event: Event, n: Machine)
    requires Invariant(m) && HeldByACaller(m) && TotalWork(m.callers) > 0
    ensures Step(m, event, n) && !event.Ask?
  {
    NoWorkIsIdle(m.callers);
    var i: nat :| i < |m.callers| && !m.callers[i].Idle?;
    if m.callers[i].Waiting? && m.lock.Some? {
      i := m.lock.value;
    }
    CallerCanMove(m, i);
    var c := m.callers[i];
    event := if c.Waiting? then Acquire(i)
             else if c.Running? then End(i, true)
             else if c.Finishing? then Finish(i, true)
             else if m.source.Completed? then Refuse(i)
             else if c.request.Statement? then Start(i) else Take(i);
    assert Enabled(m, event);
    n :| Step(m, event, n);
  }

  /** From every state a run reaches, and without any further call, finitely many steps answer everybody. */
  lemma {:induction false} EveryCallReturns(run: seq<Machine>, events: seq<Event>, callers: nat)
    returns (all: seq<Machine>, more: seq<Event>)
    requires IsRun(run, events, callers)
    ensures IsRun(all, events + more, callers) && run <= all && (forall e | e in more :: !e.Ask?)
    ensures var last := all[|all| - 1];
            && (forall i | 0 <= i < |last.callers| :: last.callers[i].Idle?)
            && last.lock.None? && last.pending.None?
            && forall k | 0 <= k < |last.replies| :: last.replies[k].Some?
    decreases TotalWork(run[|run| - 1].callers)
  {
    var m := run[|run| - 1];
    RunsKeep(run, events, callers);
    RunsHoldTheLock(run, events, callers);
    NoWorkIsIdle(m.callers);
    if TotalWork(m.callers) == 0 {
      all, more := run, [];
      assert events + more == events;
    } else {
      var event, n := SomeCallGoesOn(m);
      StepsWork(m, event, n);
      var rest;
      all, rest := EveryCallReturns(run + [n], events + [event], callers);
      more := [event] + rest;
      assert events + more == events + [event] + rest;
    }
  }

  /** However it is scheduled: without new calls a run ends within three steps a caller. */
  lemma {:induction false} NoRunIsLonger(run: seq<Machine>, events: seq<Event>, callers: nat, k: nat)
    requires IsRun(run, events, callers) && k <= |events| && forall j | k <= j < |events| :: !events[j].Ask?
    ensures |events| - k <= TotalWork(run[k].callers) <= 3 * callers
    decreases |events| - k
  {
    AtMostThreeEach(run[k].callers);
    RunsHoldTheLock(run, events, callers);
    if k < |events| {
      StepsWork(run[k], events[k], run[k + 1]);
      NoRunIsLonger(run, events, callers, k + 1);
    }
  }

  lemma {:induction false} AtMostThreeEach(callers: seq<Caller>)
    ensures TotalWork(callers) <= 3 * |callers|
    decreases |callers|
  {
    if callers != [] {
      AtMostThreeEach(callers[1..]);
    }
  }
}
