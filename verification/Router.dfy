// src/postgres/router.rs: reads go round the replicas by a wrapping counter, writes go to
// the primary. The class is the source's object; trees of nested routers are values.

module Router {

  /** The values of the source's atomic counter, a 64-bit `usize`. */
  const COUNTER_VALUES: nat := 0x1_0000_0000_0000_0000

  class PgPrimaryReplicaSource<T> {
    const primary: T
    const replicas: seq<T>
    var nextReplica: nat

    predicate Valid()
      reads this
    {
      nextReplica < COUNTER_VALUES
    }

    constructor (primary: T, replicas: seq<T>)
      ensures Valid() && nextReplica == 0 && this.primary == primary && this.replicas == replicas
    {
      this.primary := primary;
      this.replicas := replicas;
      this.nextReplica := 0;
    }

    /** `fetch_add` hands out the old value and wraps; without replicas the counter is left alone. */
    method ReadSource() returns (source: T)
      requires Valid()
      modifies this
      ensures Valid()
      ensures replicas == [] ==> source == primary && nextReplica == old(nextReplica)
      ensures replicas != [] ==>
                && source == replicas[Target(COUNTER_VALUES, |replicas|, old(nextReplica))]
                && source == replicas[old(nextReplica) % |replicas|]
                && nextReplica == if old(nextReplica) == 0xFFFF_FFFF_FFFF_FFFF then 0 else old(nextReplica) + 1
    {
      if |replicas| == 0 {
        source := primary;
      } else {
        var index := nextReplica;
        nextReplica := (nextReplica + 1) % COUNTER_VALUES;
        source := replicas[index % |replicas|];
      }
    }

    method WriteSource() returns (source: T)
      ensures source == primary
    {
      source := primary;
    }
  }

  // ----- One router -----

  /** The replica a read is sent to by the `x`-th `fetch_add` of a counter with `values` values. */
  function Target(values: nat, n: nat, x: nat): (i: nat)
    requires values > 0 && n > 0
    ensures i < n
  {
    x % values % n
  }

  /**
   * How many of `k` reads go to replica `i`, from counter value `c` on. Reads are taken in
   * the order of their `fetch_add`s, whichever callers they belong to.
   */
  function Share(values: nat, n: nat, c: nat, k: nat, i: nat): nat
    requires values > 0 && n > 0
    decreases k
  {
    if k == 0 then 0 else Share(values, n, c, k - 1, i) + if Target(values, n, c + k - 1) == i then 1 else 0
  }

  /** How many numbers below `b` leave remainder `i`. */
  function Below(n: nat, b: nat, i: nat): nat
    requires n > 0
  {
    b / n + if i < b % n then 1 else 0
  }

  lemma {:induction false} NextDivision(n: nat, b: nat)
    requires n > 0
    ensures b % n + 1 < n ==> (b + 1) / n == b / n && (b + 1) % n == b % n + 1
    ensures b % n + 1 == n ==> (b + 1) / n == b / n + 1 && (b + 1) % n == 0
  {
    assert b == n * (b / n) + b % n;
    if b % n + 1 < n {
      DivisionIs(n, b + 1, b / n, b % n + 1);
    } else {
      DivisionIs(n, b + 1, b / n + 1, 0);
    }
  }

  lemma {:induction false} DivisionIs(n: nat, a: nat, q: nat, r: nat)
    requires n > 0 && a == n * q + r && r < n
    ensures a / n == q && a % n == r
  {
    var d := q - a / n;
    assert a == n * (a / n) + a % n;
    assert n * d == a % n - r;
    assert d >= 1 ==> n * d >= n;
    assert d <= -1 ==> n * d <= -1 * n;
  }

  lemma {:induction false} BelowNext(n: nat, b: nat, i: nat)
    requires i < n
    ensures Below(n, b + 1, i) == Below(n, b, i) + if b % n == i then 1 else 0
  {
    NextDivision(n, b);
  }

  /** How many of the first `p` reads of a fresh counter go to replica `i`, without counting them one by one. */
  function Total(values: nat, n: nat, p: nat, i: nat): int
    requires values > 0 && n > 0
  {
    (p / values) * Below(n, values, i) + Below(n, p % values, i)
  }

  lemma {:induction false} TotalNext(values: nat, n: nat, p: nat, i: nat)
    requires values > 0 && i < n
    ensures Total(values, n, p + 1, i) == Total(values, n, p, i) + if Target(values, n, p) == i then 1 else 0
  {
    NextDivision(values, p);
    BelowNext(n, p % values, i);
    if p % values + 1 == values {
      assert Below(n, 0, i) == 0;
      assert (p / values + 1) * Below(n, values, i) == (p / values) * Below(n, values, i) + Below(n, values, i);
    }
  }

  lemma {:induction false} ShareIs(values: nat, n: nat, c: nat, k: nat, i: nat)
    requires values > 0 && i < n
    ensures Share(values, n, c, k, i) == Total(values, n, c + k, i) - Total(values, n, c, i)
    decreases k
  {
    if k > 0 {
      ShareIs(values, n, c, k - 1, i);
      TotalNext(values, n, c + k - 1, i);
    }
  }

  lemma {:induction false} EarlierIsAhead(n: nat, b: nat, i: nat, j: nat)
    requires i < j < n
    ensures 0 <= Below(n, b, i) - Below(n, b, j) <= 1
    ensures b % n == 0 ==> Below(n, b, i) == Below(n, b, j)
  {
  }

  function Wraps(values: nat, c: nat, k: nat): nat
    requires values > 0
  {
    (c + k) / values
  }

  /** The exact lead of replica `i` over a later replica `j`. */
  lemma {:induction false} Lead(values: nat, n: nat, c: nat, k: nat, i: nat, j: nat)
    requires c < values && i < j < n
    ensures Share(values, n, c, k, i) - Share(values, n, c, k, j)
         == Wraps(values, c, k) * (Below(n, values, i) - Below(n, values, j))
            + (Below(n, (c + k) % values, i) - Below(n, (c + k) % values, j))
            - (Below(n, c, i) - Below(n, c, j))
  {
    ShareIs(values, n, c, k, i);
    ShareIs(values, n, c, k, j);
    DivisionIs(values, c, 0, c);
    Distributes(Wraps(values, c, k), Below(n, values, i), Below(n, values, j));
  }

  lemma {:induction false} Distributes(w: int, a: int, b: int)
    ensures w * (a - b) == w * a - w * b
  {
  }

  predicate Apart(a: int, b: int, most: int) {
    -most <= a - b <= most
  }

  /** Over any run of reads two replicas differ by at most one, plus one a wraparound crossed. */
  lemma {:induction false} ReadsAreBalanced(values: nat, n: nat, c: nat, k: nat, i: nat, j: nat)
    requires c < values && i < n && j < n
    ensures Apart(Share(values, n, c, k, i), Share(values, n, c, k, j), 1 + Wraps(values, c, k))
  {
    if i < j {
      LeadIsBounded(values, n, c, k, i, j);
    } else if j < i {
      LeadIsBounded(values, n, c, k, j, i);
    }
  }

  lemma {:induction false} LeadIsBounded(values: nat, n: nat, c: nat, k: nat, i: nat, j: nat)
    requires c < values && i < j < n
    ensures Apart(Share(values, n, c, k, i), Share(values, n, c, k, j), 1 + Wraps(values, c, k))
  {
    Lead(values, n, c, k, i, j);
    EarlierIsAhead(n, values, i, j);
    EarlierIsAhead(n, (c + k) % values, i, j);
    EarlierIsAhead(n, c, i, j);
    AtMostTimes(Wraps(values, c, k), Below(n, values, i) - Below(n, values, j));
  }

  lemma {:induction false} AtMostTimes(w: nat, a: int)
    requires 0 <= a <= 1
    ensures 0 <= w * a <= w
  {
  }

  /** No two replicas are ever more than one read apart, exactly when their number divides the counter's values. */
  lemma {:induction false} AlwaysBalancedExactlyWhen(values: nat, n: nat)
    requires values > 0 && n > 0
    ensures values % n == 0
       <==> forall c, k, i, j | 0 <= c < values && 0 <= k && 0 <= i < n && 0 <= j < n ::
              Apart(Share(values, n, c, k, i), Share(values, n, c, k, j), 1)
  {
    if values % n == 0 {
      forall c, k, i, j | 0 <= c < values && 0 <= k && 0 <= i < n && 0 <= j < n
        ensures Apart(Share(values, n, c, k, i), Share(values, n, c, k, j), 1)
      {
        if i < j {
          DividedLead(values, n, c, k, i, j);
        } else if j < i {
          DividedLead(values, n, c, k, j, i);
        }
      }
    } else {
      TwiceRound(values, n);
    }
  }

  lemma {:induction false} DividedLead(values: nat, n: nat, c: nat, k: nat, i: nat, j: nat)
    requires c < values && i < j < n && values % n == 0
    ensures Apart(Share(values, n, c, k, i), Share(values, n, c, k, j), 1)
  {
    Lead(values, n, c, k, i, j);
    EarlierIsAhead(n, values, i, j);
    EarlierIsAhead(n, (c + k) % values, i, j);
    EarlierIsAhead(n, c, i, j);
    assert Wraps(values, c, k) * 0 == 0;
  }

  /** Otherwise two full turns of the counter leave the first replica two reads ahead of the last. */
  lemma {:induction false} TwiceRound(values: nat, n: nat)
    requires values > 0 && n > 0 && values % n != 0
    ensures n > 1
    ensures Share(values, n, 0, 2 * values, 0) == Share(values, n, 0, 2 * values, n - 1) + 2
  {
    assert values % 1 == 0;
    Lead(values, n, 0, 2 * values, 0, n - 1);
    DivisionIs(values, 2 * values, 2, 0);
    assert Wraps(values, 0, 2 * values) == 2 && Below(n, values, 0) == Below(n, values, n - 1) + 1;
  }

  /** So it is for three replicas behind the source's own counter. */
  lemma {:induction false} ThreeReplicasDrift()
    ensures Share(COUNTER_VALUES, 3, 0, 2 * COUNTER_VALUES, 0) == Share(COUNTER_VALUES, 3, 0, 2 * COUNTER_VALUES, 2) + 2
  {
    assert COUNTER_VALUES % 3 == 1;
    TwiceRound(COUNTER_VALUES, 3);
  }

  // ----- Trees of routers -----

  /** A data source: a server with its counts of reads and writes, or a router over sources. */
  datatype Source =
    | Server(readCount: nat, writeCount: nat)
    | Routed(primary: Source, replicas: seq<Source>, next: nat)

  predicate Counting(values: nat, s: Source) {
    match s
    case Server(_, _) => true
    case Routed(primary, replicas, next) =>
      && next < values && Counting(values, primary)
      && forall i | 0 <= i < |replicas| :: Counting(values, replicas[i])
  }

  function Read(values: nat, s: Source): Source
    requires values > 0
    decreases s
  {
    match s
    case Server(r, w) => Server(r + 1, w)
    case Routed(primary, replicas, next) =>
      if replicas == [] then Routed(Read(values, primary), [], next)
      else
        var i := Target(values, |replicas|, next);
        Routed(primary, replicas[i := Read(values, replicas[i])], (next + 1) % values)
  }

  function Write(s: Source): Source {
    match s
    case Server(r, w) => Server(r, w + 1)
    case Routed(primary, replicas, next) => Routed(Write(primary), replicas, next)
  }

  datatype Call = Reading | Writing

  /** A run of calls, in the order they reach the root. */
  function After(values: nat, s: Source, calls: seq<Call>): Source
    requires values > 0
    decreases |calls|
  {
    if calls == [] then s
    else
      var before := After(values, s, calls[..|calls| - 1]);
      if calls[|calls| - 1].Reading? then Read(values, before) else Write(before)
  }

  function Number(calls: seq<Call>, call: Call): nat {
    if calls == [] then 0
    else Number(calls[..|calls| - 1], call) + if calls[|calls| - 1] == call then 1 else 0
  }

  function Reads(values: nat, s: Source, k: nat): Source
    requires values > 0
    decreases k
  {
    if k == 0 then s else Read(values, Reads(values, s, k - 1))
  }

  function Writes(s: Source, k: nat): Source
    decreases k
  {
    if k == 0 then s else Write(Writes(s, k - 1))
  }

  /** Reads and writes do not get into each other's way. */
  lemma {:induction false} ReadsAndWritesCommute(values: nat, s: Source)
    requires values > 0
    ensures Read(values, Write(s)) == Write(Read(values, s))
    decreases s
  {
    if s.Routed? && s.replicas == [] {
      ReadsAndWritesCommute(values, s.primary);
    }
  }

  lemma {:induction false} WriteAfterReads(values: nat, s: Source, k: nat)
    requires values > 0
    ensures Write(Reads(values, s, k)) == Reads(values, Write(s), k)
    decreases k
  {
    if k > 0 {
      WriteAfterReads(values, s, k - 1);
      ReadsAndWritesCommute(values, Reads(values, s, k - 1));
    }
  }

  lemma {:induction false} AfterIs(values: nat, s: Source, calls: seq<Call>)
    requires values > 0
    ensures After(values, s, calls) == Reads(values, Writes(s, Number(calls, Writing)), Number(calls, Reading))
    decreases |calls|
  {
    if calls != [] {
      var before := calls[..|calls| - 1];
      AfterIs(values, s, before);
      WriteAfterReads(values, Writes(s, Number(before, Writing)), Number(before, Reading));
    }
  }

  lemma {:induction false} CounterNext(values: nat, x: nat)
    requires values > 0
    ensures x % values % values == x % values && (x % values + 1) % values == (x + 1) % values
  {
    DivisionIs(values, x % values, 0, x % values);
    NextDivision(values, x);
    NextDivision(values, x % values);
  }

  /** One more read at a router whose counter has handed out the values up to `x`. */
  lemma {:induction false} ReadAt(values: nat, primary: Source, replicas: seq<Source>, x: nat)
    requires values > 0 && replicas != []
    ensures var i := Target(values, |replicas|, x);
            Read(values, Routed(primary, replicas, x % values))
            == Routed(primary, replicas[i := Read(values, replicas[i])], (x + 1) % values)
  {
    CounterNext(values, x);
  }

  /** Each of these sources after its share of `k` reads. */
  function Shared(values: nat, replicas: seq<Source>, c: nat, k: nat): (r: seq<Source>)
    requires values > 0 && replicas != []
    ensures |r| == |replicas|
    ensures forall i | 0 <= i < |r| :: r[i] == Reads(values, replicas[i], Share(values, |replicas|, c, k, i))
  {
    seq(|replicas|, i requires 0 <= i < |replicas| => Reads(values, replicas[i], Share(values, |replicas|, c, k, i)))
  }

  lemma {:induction false} SharedNext(values: nat, replicas: seq<Source>, c: nat, k: nat)
    requires values > 0 && replicas != []
    ensures var before := Shared(values, replicas, c, k);
            var i := Target(values, |replicas|, c + k);
            Shared(values, replicas, c, k + 1) == before[i := Read(values, before[i])]
  {
  }

  /** A router with replicas hands each replica its share of the reads, and the primary none. */
  lemma {:induction false} SharedNone(values: nat, replicas: seq<Source>, c: nat)
    requires replicas != [] && c < values
    ensures Shared(values, replicas, c, 0) == replicas && c % values == c
  {
    DivisionIs(values, c, 0, c);
  }

  lemma {:induction false} SharedRead(values: nat, primary: Source, replicas: seq<Source>, c: nat, k: nat)
    requires values > 0 && replicas != []
    ensures Read(values, Routed(primary, Shared(values, replicas, c, k), (c + k) % values))
         == Routed(primary, Shared(values, replicas, c, k + 1), (c + k + 1) % values)
  {
    ReadAt(values, primary, Shared(values, replicas, c, k), c + k);
    SharedNext(values, replicas, c, k);
  }

  /** The replica and the counter after a read, with the width of the counter written out. */
  lemma {:induction false} ReadsGoTo(t: Source)
    requires t.Routed? && t.replicas != [] && t.next < 0x1_0000_0000_0000_0000
    ensures var i := t.next % |t.replicas|;
            Read(COUNTER_VALUES, t)
            == Routed(t.primary, t.replicas[i := Read(COUNTER_VALUES, t.replicas[i])],
                      if t.next == 0xFFFF_FFFF_FFFF_FFFF then 0 else t.next + 1)
            && Target(COUNTER_VALUES, |t.replicas|, t.next) == i
  {
    SmallNumber(t.next);
    if t.next < 0xFFFF_FFFF_FFFF_FFFF {
      SmallNumber(t.next + 1);
    }
  }

  lemma {:induction false} SmallNumber(k: nat)
    requires k < 0x1_0000_0000_0000_0000
    ensures k % COUNTER_VALUES == k
  {
    DivisionIs(COUNTER_VALUES, k, 0, k);
  }

  /** Until its counter wraps, a fresh router goes strictly round: read `k` goes to replica `k` modulo their number. */
  lemma {:induction false} FreshRouterGoesRound(s: Source, k: nat)
    requires s.Routed? && s.replicas != [] && s.next == 0 && k < 0x1_0000_0000_0000_0000
    ensures var t := Reads(COUNTER_VALUES, s, k);
            && t.Routed? && t.primary == s.primary && |t.replicas| == |s.replicas| && t.next == k
            && var i := k % |s.replicas|;
               Read(COUNTER_VALUES, t).Routed?
               && Read(COUNTER_VALUES, t).replicas == t.replicas[i := Read(COUNTER_VALUES, t.replicas[i])]
    decreases k
  {
    if k > 0 {
      FreshRouterGoesRound(s, k - 1);
      ReadsGoTo(Reads(COUNTER_VALUES, s, k - 1));
    }
    ReadsGoTo(Reads(COUNTER_VALUES, s, k));
  }

  lemma {:induction false} ReadsAreShared(values: nat, s: Source, k: nat)
    requires Counting(values, s) && s.Routed? && s.replicas != []
    ensures Reads(values, s, k)
         == Routed(s.primary, Shared(values, s.replicas, s.next, k), (s.next + k) % values)
    decreases k
  {
    if k == 0 {
      SharedNone(values, s.replicas, s.next);
    } else {
      ReadsAreShared(values, s, k - 1);
      SharedRead(values, s.primary, s.replicas, s.next, k - 1);
    }
  }

  lemma {:induction false} ReadsWithoutReplicas(values: nat, s: Source, k: nat)
    requires values > 0 && s.Routed? && s.replicas == []
    ensures Reads(values, s, k) == Routed(Reads(values, s.primary, k), [], s.next)
    decreases k
  {
    if k > 0 {
      ReadsWithoutReplicas(values, s, k - 1);
    }
  }

  lemma {:induction false} ReadsOnAServer(values: nat, s: Source, k: nat)
    requires values > 0 && s.Server?
    ensures Reads(values, s, k) == Server(s.readCount + k, s.writeCount)
    decreases k
  {
    if k > 0 {
      ReadsOnAServer(values, s, k - 1);
    }
  }

  // ----- Where reads and writes end up -----

  /** `k` writes reach the one server found by following primaries; nothing else changes. */
  ghost predicate WroteTo(before: Source, after: Source, k: nat) {
    match before
    case Server(r, w) => after == Server(r, w + k)
    case Routed(primary, replicas, next) =>
      after.Routed? && after.replicas == replicas && after.next == next && WroteTo(primary, after.primary, k)
  }

  function ReadsOf(s: Source): nat
    decreases s, 0
  {
    match s
    case Server(r, _) => r
    case Routed(primary, replicas, _) => ReadsOf(primary) + ReadsOfAll(replicas, |replicas|)
  }

  function ReadsOfAll(replicas: seq<Source>, k: nat): nat
    requires k <= |replicas|
    decreases replicas, k
  {
    if k == 0 then 0 else ReadsOfAll(replicas, k - 1) + ReadsOf(replicas[k - 1])
  }

  /**
   * `k` reads reach this source: they sum up at its servers, skip the primary of every
   * router with replicas, and stay even among its replicas, at every level below.
   */
  ghost predicate Spread(values: nat, before: Source, after: Source, k: nat)
    requires values > 0
    decreases before
  {
    && ReadsOf(after) == ReadsOf(before) + k
    && match before
       case Server(r, w) => after == Server(r + k, w)
       case Routed(primary, replicas, next) =>
         && after.Routed? && |after.replicas| == |replicas|
         && if replicas == [] then Spread(values, primary, after.primary, k)
            else
              && after.primary == primary
              && (forall i | 0 <= i < |replicas| :: ReadsOf(after.replicas[i]) >= ReadsOf(replicas[i]))
              && (forall i, j | 0 <= i < |replicas| && 0 <= j < |replicas| ::
                    Apart(ReadsOf(after.replicas[i]) - ReadsOf(replicas[i]),
                          ReadsOf(after.replicas[j]) - ReadsOf(replicas[j]), 1 + Wraps(values, next, k)))
              && forall i | 0 <= i < |replicas| ::
                   Spread(values, replicas[i], after.replicas[i], ReadsOf(after.replicas[i]) - ReadsOf(replicas[i]))
  }

  lemma {:induction false} WritesReachTheMaster(s: Source, k: nat)
    ensures WroteTo(s, Writes(s, k), k)
    decreases s
  {
    if s.Routed? {
      WritesReachTheMaster(s.primary, k);
      WritesPassOn(s, k);
    } else {
      WritesOnAServer(s, k);
    }
  }

  lemma {:induction false} WritesPassOn(s: Source, k: nat)
    requires s.Routed?
    ensures Writes(s, k) == Routed(Writes(s.primary, k), s.replicas, s.next)
    decreases k
  {
    if k > 0 {
      WritesPassOn(s, k - 1);
    }
  }

  lemma {:induction false} WritesOnAServer(s: Source, k: nat)
    requires s.Server?
    ensures Writes(s, k) == Server(s.readCount, s.writeCount + k)
    decreases k
  {
    if k > 0 {
      WritesOnAServer(s, k - 1);
    }
  }

  /** The shares of all replicas add up to all reads. */
  function Shares(values: nat, n: nat, c: nat, k: nat, upTo: nat): nat
    requires values > 0 && n > 0
  {
    if upTo == 0 then 0 else Shares(values, n, c, k, upTo - 1) + Share(values, n, c, k, upTo - 1)
  }

  lemma {:induction false} SharesAddUp(values: nat, n: nat, c: nat, k: nat, upTo: nat)
    requires values > 0 && upTo <= n && n > 0
    ensures Shares(values, n, c, k, upTo)
         == if k == 0 then 0
            else Shares(values, n, c, k - 1, upTo) + if Target(values, n, c + k - 1) < upTo then 1 else 0
    decreases upTo
  {
    if upTo > 0 {
      SharesAddUp(values, n, c, k, upTo - 1);
    }
  }

  lemma {:induction false} AllShares(values: nat, n: nat, c: nat, k: nat)
    requires values > 0 && n > 0
    ensures Shares(values, n, c, k, n) == k
    decreases k
  {
    SharesAddUp(values, n, c, k, n);
    if k > 0 {
      AllShares(values, n, c, k - 1);
    }
  }

  lemma {:induction false} ReadsSpread(values: nat, s: Source, k: nat)
    requires values > 0 && Counting(values, s)
    ensures Spread(values, s, Reads(values, s, k), k)
    decreases s
  {
    if s.Server? {
      ReadsOnAServer(values, s, k);
    } else if s.replicas == [] {
      ReadsSpread(values, s.primary, k);
      ReadsWithoutReplicas(values, s, k);
    } else {
      var n := |s.replicas|;
      var shared := Shared(values, s.replicas, s.next, k);
      forall i | 0 <= i < n
        ensures Spread(values, s.replicas[i], shared[i], Share(values, n, s.next, k, i))
      {
        ReadsSpread(values, s.replicas[i], Share(values, n, s.next, k, i));
      }
      ReadsAreShared(values, s, k);
      SharesSpread(values, s, shared, k, Reads(values, s, k));
    }
  }

  lemma {:induction false} SharesSpread(values: nat, s: Source, shared: seq<Source>, k: nat, t: Source)
    requires values > 0 && s.Routed? && s.replicas != [] && |shared| == |s.replicas| && s.next < values
    requires t.Routed? && t.primary == s.primary && t.replicas == shared
    requires forall i | 0 <= i < |shared| ::
               Spread(values, s.replicas[i], shared[i], Share(values, |shared|, s.next, k, i))
    ensures Spread(values, s, t, k)
  {
    var n := |shared|;
    SharesCounted(values, s.replicas, shared, s.next, k);
    SumOfShares(values, s.replicas, shared, s.next, k, n);
    AllShares(values, n, s.next, k);
    SharesAreEven(values, s.replicas, shared, s.next, k);
  }

  lemma {:induction false} SharesCounted(values: nat, before: seq<Source>, after: seq<Source>, c: nat, k: nat)
    requires values > 0 && before != [] && |after| == |before|
    requires forall i | 0 <= i < |before| :: Spread(values, before[i], after[i], Share(values, |before|, c, k, i))
    ensures forall i | 0 <= i < |before| ::
              && ReadsOf(after[i]) == ReadsOf(before[i]) + Share(values, |before|, c, k, i)
              && Spread(values, before[i], after[i], ReadsOf(after[i]) - ReadsOf(before[i]))
  {
    forall i | 0 <= i < |before|
      ensures ReadsOf(after[i]) == ReadsOf(before[i]) + Share(values, |before|, c, k, i)
      ensures Spread(values, before[i], after[i], ReadsOf(after[i]) - ReadsOf(before[i]))
    {
      SpreadCounts(values, before[i], after[i], Share(values, |before|, c, k, i));
    }
  }

  lemma {:induction false} SpreadCounts(values: nat, before: Source, after: Source, k: nat)
    requires values > 0 && Spread(values, before, after, k)
    ensures ReadsOf(after) == ReadsOf(before) + k
  {
  }

  lemma {:induction false} SharesAreEven(values: nat, before: seq<Source>, after: seq<Source>, c: nat, k: nat)
    requires c < values && before != [] && |after| == |before|
    requires forall i | 0 <= i < |before| :: ReadsOf(after[i]) == ReadsOf(before[i]) + Share(values, |before|, c, k, i)
    ensures forall i, j | 0 <= i < |before| && 0 <= j < |before| ::
              Apart(ReadsOf(after[i]) - ReadsOf(before[i]), ReadsOf(after[j]) - ReadsOf(before[j]),
                    1 + Wraps(values, c, k))
  {
    forall i, j | 0 <= i < |before| && 0 <= j < |before|
      ensures Apart(ReadsOf(after[i]) - ReadsOf(before[i]), ReadsOf(after[j]) - ReadsOf(before[j]),
                    1 + Wraps(values, c, k))
    {
      ReadsAreBalanced(values, |before|, c, k, i, j);
    }
  }

  lemma {:induction false} SumOfShares(
    values: nat, before: seq<Source>, after: seq<Source>, c: nat, k: nat, upTo: nat)
    requires values > 0 && upTo <= |before| == |after| && before != []
    requires forall i | 0 <= i < |before| :: ReadsOf(after[i]) == ReadsOf(before[i]) + Share(values, |before|, c, k, i)
    ensures ReadsOfAll(after, upTo) == ReadsOfAll(before, upTo) + Shares(values, |before|, c, k, upTo)
    decreases upTo
  {
    if upTo > 0 {
      SumOfShares(values, before, after, c, k, upTo - 1);
    }
  }

  lemma {:induction false} WritesKeepCounting(values: nat, s: Source, k: nat)
    requires Counting(values, s)
    ensures Counting(values, Writes(s, k))
    decreases s
  {
    if s.Routed? {
      WritesKeepCounting(values, s.primary, k);
      WritesPassOn(s, k);
    } else {
      WritesOnAServer(s, k);
    }
  }

  /**
   * Any run of reads and writes on any finite tree of routers: all writes reach the one
   * server found by following primaries, all reads spread evenly as they should, and
   * neither disturbs the other.
   */
  lemma {:induction false} RunOnATree(values: nat, s: Source, calls: seq<Call>)
    requires values > 0 && Counting(values, s)
    ensures var written := Writes(s, Number(calls, Writing));
            && WroteTo(s, written, Number(calls, Writing))
            && Spread(values, written, After(values, s, calls), Number(calls, Reading))
  {
    AfterIs(values, s, calls);
    WritesReachTheMaster(s, Number(calls, Writing));
    WritesKeepCounting(values, s, Number(calls, Writing));
    ReadsSpread(values, Writes(s, Number(calls, Writing)), Number(calls, Reading));
  }

  /** The writes each server has had, the one found by following primaries first. */
  function WriteCounts(s: Source): (counts: seq<nat>)
    ensures counts != []
    decreases s, 0
  {
    match s
    case Server(_, w) => [w]
    case Routed(primary, replicas, _) => WriteCounts(primary) + WriteCountsOfAll(replicas, |replicas|)
  }

  function WriteCountsOfAll(replicas: seq<Source>, k: nat): seq<nat>
    requires k <= |replicas|
    decreases replicas, k
  {
    if k == 0 then [] else WriteCountsOfAll(replicas, k - 1) + WriteCounts(replicas[k - 1])
  }

  lemma {:induction false} SameWriteCounts(before: seq<Source>, after: seq<Source>, k: nat)
    requires k <= |before| == |after|
    requires forall i | 0 <= i < |before| :: WriteCounts(after[i]) == WriteCounts(before[i])
    ensures WriteCountsOfAll(after, k) == WriteCountsOfAll(before, k)
    decreases k
  {
    if k > 0 {
      SameWriteCounts(before, after, k - 1);
    }
  }

  lemma {:induction false} ReadsAreNoWrites(values: nat, s: Source)
    requires values > 0
    ensures WriteCounts(Read(values, s)) == WriteCounts(s)
    decreases s
  {
    if s.Routed? {
      if s.replicas == [] {
        ReadsAreNoWrites(values, s.primary);
      } else {
        var i := Target(values, |s.replicas|, s.next);
        ReadsAreNoWrites(values, s.replicas[i]);
        SameWriteCounts(s.replicas, s.replicas[i := Read(values, s.replicas[i])], |s.replicas|);
      }
    }
  }

  lemma {:induction false} WriteIsCounted(s: Source)
    ensures WriteCounts(Write(s)) == WriteCounts(s)[0 := WriteCounts(s)[0] + 1]
    decreases s
  {
    if s.Routed? {
      WriteIsCounted(s.primary);
    }
  }

  /** Over any run, each write reaches the server found by following primaries, and no other. */
  lemma {:induction false} WritesOnATree(values: nat, s: Source, calls: seq<Call>)
    requires values > 0
    ensures WriteCounts(After(values, s, calls))
         == WriteCounts(s)[0 := WriteCounts(s)[0] + Number(calls, Writing)]
    decreases |calls|
  {
    if calls != [] {
      var before := calls[..|calls| - 1];
      WritesOnATree(values, s, before);
      ReadsAreNoWrites(values, After(values, s, before));
      WriteIsCounted(After(values, s, before));
    }
  }
}
