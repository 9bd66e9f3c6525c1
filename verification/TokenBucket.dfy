/**
 The token bucket of juju/ratelimit.  Time is an integer; tick t starts `t * interval` after
 the bucket's start.  Whole runs of takes are bounded by what the bucket could have been
 filled with, although `Adjust` leaves `availTick` behind whenever the bucket is full.
 */
module TokenBucket {
  import opened Wrappers

  datatype Config = Config(start: int, capacity: int, quantum: int, interval: int)

  /** `avail` tokens as of tick `availTick`; negative while consumers wait. */
  datatype Level = Level(avail: int, availTick: int)

  predicate ValidConfig(c: Config) { c.capacity > 0 && c.quantum > 0 && c.interval > 0 }

  function Tick(c: Config, now: int): (t: int)
    requires ValidConfig(c) && now >= c.start
    ensures t >= 0 && c.start + t * c.interval <= now < c.start + (t + 1) * c.interval
  {
    (now - c.start) / c.interval
  }

  lemma {:induction false} MulCancel(x: int, y: int, k: int)
    requires k > 0 && x * k < y * k
    ensures x < y
  {
  }

  lemma {:induction false} TickMonotone(c: Config, a: int, b: int)
    requires ValidConfig(c) && c.start <= a <= b
    ensures Tick(c, a) <= Tick(c, b)
  {
    MulCancel(Tick(c, a), Tick(c, b) + 1, c.interval);
  }

  function New(c: Config): Level { Level(c.capacity, 0) }

  function Adjust(c: Config, b: Level, tick: int): Level {
    if b.avail >= c.capacity then b
    else
      var filled := b.avail + (tick - b.availTick) * c.quantum;
      Level(if filled > c.capacity then c.capacity else filled, tick)
  }

  /** Tokens handed out by one call, and the tick from which they may be used. */
  datatype Grant = Grant(count: int, usable: int)

  datatype Op = Take(now: int, count: int, maxWait: int) | TakeAvailable(now: int, count: int) | Available(now: int)

  /** The tick at which a debt of `debt` tokens, counted from `tick`, is paid. */
  function EndTick(c: Config, tick: int, debt: int): int
    requires ValidConfig(c)
  {
    tick + (debt + c.quantum - 1) / c.quantum
  }

  /** One call: the new level, the grant it makes if any, and the wait it asks for. */
  datatype Effect = Effect(level: Level, grant: Option<Grant>, wait: int, ok: bool)

  function Apply(c: Config, b: Level, op: Op): Effect
    requires ValidConfig(c) && op.now >= c.start
  {
    var tick := Tick(c, op.now);
    match op
    case Available(_) => Effect(Adjust(c, b, tick), None, 0, true)
    case TakeAvailable(_, count) =>
      if count <= 0 then Effect(b, None, 0, true)
      else
        var a := Adjust(c, b, tick);
        if a.avail <= 0 then Effect(a, None, 0, true)
        else
          var n := if count > a.avail then a.avail else count;
          Effect(a.(avail := a.avail - n), Some(Grant(n, tick)), 0, true)
    case Take(now, count, maxWait) =>
      if count <= 0 then Effect(b, None, 0, true)
      else
        var a := Adjust(c, b, tick);
        var left := a.avail - count;
        if left >= 0 then Effect(a.(avail := left), Some(Grant(count, tick)), 0, true)
        else
          var end := EndTick(c, tick, -left);
          var wait := c.start + end * c.interval - now;
          if wait > maxWait then Effect(a, None, 0, false)
          else Effect(a.(avail := left), Some(Grant(count, end)), wait, true)
  }

  // ---------- one call ----------

  lemma {:induction false} EndTickPays(c: Config, tick: int, debt: int)
    requires ValidConfig(c) && debt > 0
    ensures EndTick(c, tick, debt) > tick
    ensures c.quantum * (EndTick(c, tick, debt) - tick) >= debt
    ensures c.quantum * (EndTick(c, tick, debt) - 1 - tick) < debt
  {
    var n := (debt + c.quantum - 1) / c.quantum;
    assert debt + c.quantum - 1 == c.quantum * n + (debt + c.quantum - 1) % c.quantum;
    MulCancel(0, n, c.quantum);
    assert c.quantum * (n - 1) == c.quantum * n - c.quantum;
  }

  /** The level never exceeds the capacity, and a refused request takes nothing. */
  lemma {:induction false} CallKeepsLevel(c: Config, b: Level, op: Op)
    requires ValidConfig(c) && op.now >= c.start && b.avail <= c.capacity
    ensures var e := Apply(c, b, op);
            && e.level.avail <= c.capacity
            && (e.grant.None? ==> e.level == b || e.level == Adjust(c, b, Tick(c, op.now)))
            && (e.grant.Some? ==> e.grant.value.count > 0 && e.level.avail + e.grant.value.count
                                  == Adjust(c, b, Tick(c, op.now)).avail)
            && (!e.ok ==> e.grant.None?)
  {
  }

  /** `have` tokens are there at tick `tick`: a full bucket keeps what it has, another is filled to capacity at most. */
  ghost predicate Has(c: Config, b: Level, tick: int, have: int) {
    var poured := c.quantum * (tick - b.availTick);
    if b.avail >= c.capacity then have == b.avail
    else have <= c.capacity && have <= b.avail + poured && (have == c.capacity || have == b.avail + poured)
  }

  /** `paid` is the first tick by which `debt` tokens have been poured in after tick `tick`. */
  ghost predicate FirstPaid(c: Config, tick: int, debt: int, paid: int) {
    c.quantum * (paid - tick) >= debt && c.quantum * (paid - 1 - tick) < debt
  }

  /** The level holds `left` tokens, and what it holds is counted up to tick `tick` unless it was full. */
  ghost predicate Holds(c: Config, b: Level, tick: int, after: Level, left: int) {
    after.avail == left && after.availTick == if b.avail >= c.capacity then b.availTick else tick
  }

  lemma {:induction false} AdjustHas(c: Config, b: Level, tick: int, have: int)
    requires Has(c, b, tick, have)
    ensures Holds(c, b, tick, Adjust(c, b, tick), have)
  {
    assert c.quantum * (tick - b.availTick) == (tick - b.availTick) * c.quantum;
  }

  /** The first tick that pays a debt is `EndTick`: no other tick is first. */
  lemma {:induction false} EndTickFirst(c: Config, tick: int, debt: int, paid: int)
    requires ValidConfig(c) && debt > 0 && FirstPaid(c, tick, debt, paid)
    ensures paid == EndTick(c, tick, debt)
  {
    var end := EndTick(c, tick, debt);
    EndTickPays(c, tick, debt);
    MulCancel(paid - 1 - tick, end - tick, c.quantum);
    MulCancel(end - 1 - tick, paid - tick, c.quantum);
  }

  /**
   What a `Take` does, in the bucket's arithmetic: what is there is granted at once and without
   a wait; more is granted for the first tick that pays for it, if that is soon enough; nothing
   is granted otherwise.
   */
  lemma {:induction false} TakeIs(c: Config, b: Level, op: Op, have: int, paid: int)
    requires ValidConfig(c) && op.now >= c.start && op.Take?
    requires Has(c, b, Tick(c, op.now), have)
    requires op.count > have ==> FirstPaid(c, Tick(c, op.now), op.count - have, paid)
    ensures var e, tick, wait := Apply(c, b, op), Tick(c, op.now), c.start + paid * c.interval - op.now;
            if op.count <= 0 then e == Effect(b, None, 0, true)
            else if op.count <= have then
              Holds(c, b, tick, e.level, have - op.count)
              && e.grant == Some(Grant(op.count, tick)) && e.wait == 0 && e.ok
            else if wait <= op.maxWait then
              Holds(c, b, tick, e.level, have - op.count)
              && e.grant == Some(Grant(op.count, paid)) && e.wait == wait && e.ok
            else Holds(c, b, tick, e.level, have) && e.grant.None? && e.wait == 0 && !e.ok
  {
    AdjustHas(c, b, Tick(c, op.now), have);
    if op.count > have && op.count > 0 {
      EndTickFirst(c, Tick(c, op.now), op.count - have, paid);
    }
  }

  /** `TakeAvailable` grants at once the smaller of what is asked for and what is there; looking grants nothing. */
  lemma {:induction false} TakeAvailableIs(c: Config, b: Level, op: Op, have: int)
    requires ValidConfig(c) && op.now >= c.start && !op.Take?
    requires Has(c, b, Tick(c, op.now), have)
    ensures var e, tick := Apply(c, b, op), Tick(c, op.now);
            && e.wait == 0 && e.ok
            && (op.Available? ==> Holds(c, b, tick, e.level, have) && e.grant.None?)
            && (op.TakeAvailable? ==>
                  if op.count <= 0 then e.level == b && e.grant.None?
                  else if have <= 0 then Holds(c, b, tick, e.level, have) && e.grant.None?
                  else
                    && e.grant.Some? && e.grant.value.usable == tick
                    && e.grant.value.count <= op.count && e.grant.value.count <= have
                    && (e.grant.value.count == op.count || e.grant.value.count == have)
                    && Holds(c, b, tick, e.level, have - e.grant.value.count))
  {
    AdjustHas(c, b, Tick(c, op.now), have);
  }

  /** A new bucket is full, whenever it is first asked. */
  lemma {:induction false} StartsFull(c: Config, now: int, count: int)
    requires ValidConfig(c) && now >= c.start && 0 < count
    ensures var e := Apply(c, New(c), TakeAvailable(now, count));
            && e.grant == Some(Grant(if count <= c.capacity then count else c.capacity, Tick(c, now)))
            && e.level.avail == c.capacity - e.grant.value.count
  {
    TakeAvailableIs(c, New(c), TakeAvailable(now, count), c.capacity);
  }

  /** A grant on credit is usable exactly when the promised wait is over, and not immediately. */
  lemma {:induction false} WaitEndsAtUsableTick(c: Config, b: Level, op: Op)
    requires ValidConfig(c) && op.now >= c.start && op.Take?
    requires var e := Apply(c, b, op); e.grant.Some? && e.level.avail < 0
    ensures var e := Apply(c, b, op);
            0 < e.wait <= op.maxWait && op.now + e.wait == c.start + e.grant.value.usable * c.interval
  {
    var tick := Tick(c, op.now);
    var debt := op.count - Adjust(c, b, tick).avail;
    EndTickPays(c, tick, debt);
    WaitIsPositive(c, op.now, EndTick(c, tick, debt));
  }

  lemma {:induction false} WaitIsPositive(c: Config, now: int, end: int)
    requires ValidConfig(c) && now >= c.start && end > Tick(c, now)
    ensures c.start + end * c.interval > now
  {
    MulMonotone(Tick(c, now) + 1, end, c.interval);
  }

  lemma {:induction false} MulMonotone(x: int, y: int, k: int)
    requires x <= y && k >= 0
    ensures x * k <= y * k
  {
  }

  /**
   With no later takes the bucket is out of debt by the promised tick; and it is still in debt
   a tick earlier exactly when the take did not come to a full bucket with a stale `availTick`.
   */
  lemma {:induction false} DebtPaidByPromise(c: Config, b: Level, op: Op)
    requires ValidConfig(c) && op.now >= c.start && op.Take? && b.availTick <= Tick(c, op.now)
    requires var e := Apply(c, b, op); e.grant.Some? && e.level.avail < 0
    ensures var e := Apply(c, b, op);
            && Adjust(c, e.level, e.grant.value.usable).avail >= 0
            && (Adjust(c, e.level, e.grant.value.usable - 1).avail < 0
                <==> b.avail < c.capacity || b.availTick == Tick(c, op.now))
  {
    var tick := Tick(c, op.now);
    var e := Apply(c, b, op);
    EndTickPays(c, tick, -e.level.avail);
    EndTickTight(c, tick, -e.level.avail);
    Refill(c, e.level, tick, e.grant.value.usable);
    Refill(c, e.level, tick, e.grant.value.usable - 1);
  }

  /** One tick before it pays the debt, what is poured in is at most one quantum short of it. */
  lemma {:induction false} EndTickTight(c: Config, tick: int, debt: int)
    requires ValidConfig(c) && debt > 0
    ensures c.quantum * (EndTick(c, tick, debt) - 1 - tick) >= debt - c.quantum
  {
    EndTickPays(c, tick, debt);
    var n := EndTick(c, tick, debt) - tick;
    assert c.quantum * (n - 1) == c.quantum * n - c.quantum;
  }

  /** What an empty bucket holds at tick `later`, split at `tick`. */
  lemma {:induction false} Refill(c: Config, b: Level, tick: int, later: int)
    requires ValidConfig(c) && b.avail < 0 && b.availTick <= tick
    ensures var now := b.avail + c.quantum * (later - tick);
            && (now >= 0 ==> Adjust(c, b, later).avail >= 0)
            && (b.availTick == tick && now < 0 ==> Adjust(c, b, later).avail < 0)
            && (b.availTick < tick && now >= -c.quantum ==> Adjust(c, b, later).avail >= 0)
  {
    assert (later - b.availTick) * c.quantum == c.quantum * (later - tick) + (tick - b.availTick) * c.quantum;
    if b.availTick < tick {
      MulMonotone(1, tick - b.availTick, c.quantum);
    }
  }

  // ---------- whole runs ----------

  /** The clock does not run backwards, starting from `from`. */
  ghost predicate Ordered(ops: seq<Op>, from: int)
    decreases |ops|
  {
    ops == [] || (from <= ops[0].now && Ordered(ops[1..], ops[0].now))
  }

  function Grants(c: Config, b: Level, ops: seq<Op>): seq<Grant>
    requires ValidConfig(c) && forall i :: 0 <= i < |ops| ==> ops[i].now >= c.start
    decreases |ops|
  {
    if ops == [] then []
    else
      var e := Apply(c, b, ops[0]);
      (if e.grant.Some? then [e.grant.value] else []) + Grants(c, e.level, ops[1..])
  }

  /** Tokens that may be used by tick `t`. */
  function UsableBy(gs: seq<Grant>, t: int): int {
    if gs == [] then 0
    else (if gs[0].usable <= t then gs[0].count else 0) + UsableBy(gs[1..], t)
  }

  lemma {:induction false} UsableByAppend(g: Grant, gs: seq<Grant>, t: int)
    ensures UsableBy([g] + gs, t) == (if g.usable <= t then g.count else 0) + UsableBy(gs, t)
  {
    assert ([g] + gs)[1..] == gs;
  }

  /** What the bucket holds as of `availTick`, and everything poured in from then to tick `t`. */
  function Supply(c: Config, b: Level, t: int): int { b.avail + c.quantum * (t - b.availTick) }

  lemma {:induction false} AdjustSupply(c: Config, b: Level, tick: int, t: int)
    requires ValidConfig(c) && b.avail <= c.capacity && b.availTick <= tick
    ensures var a := Adjust(c, b, tick);
            Supply(c, a, t) <= Supply(c, b, t) && a.avail <= c.capacity && b.availTick <= a.availTick <= tick
  {
    if b.avail < c.capacity {
      assert c.quantum * (t - tick) + c.quantum * (tick - b.availTick) == c.quantum * (t - b.availTick);
    }
  }

  /** If a grant is usable by tick `t`, the supply up to `t` covers it. */
  lemma {:induction false} GrantWithinSupply(c: Config, b: Level, op: Op, t: int)
    requires ValidConfig(c) && op.now >= c.start && b.avail <= c.capacity && b.availTick <= Tick(c, op.now)
    ensures var e := Apply(c, b, op);
            && b.availTick <= e.level.availTick <= Tick(c, op.now) && e.level.avail <= c.capacity
            && (e.grant.None? ==> Supply(c, e.level, t) <= Supply(c, b, t))
            && (e.grant.Some? ==>
                  && e.grant.value.count + Supply(c, e.level, t) <= Supply(c, b, t)
                  && (e.grant.value.usable <= t ==> Supply(c, e.level, t) >= 0))
  {
    var tick := Tick(c, op.now);
    var e := Apply(c, b, op);
    AdjustSupply(c, b, tick, t);
    if e.grant.Some? && e.grant.value.usable <= t {
      if e.level.avail < 0 {
        EndTickPays(c, tick, -e.level.avail);
        SupplyCovers(c, e.level, tick, e.grant.value.usable, t);
      } else {
        SupplyCovers(c, e.level, tick, tick, t);
      }
    }
  }

  lemma {:induction false} SupplyCovers(c: Config, b: Level, tick: int, end: int, t: int)
    requires ValidConfig(c) && b.availTick <= tick <= end <= t && b.avail + c.quantum * (end - tick) >= 0
    ensures Supply(c, b, t) >= 0
  {
    assert c.quantum * (t - b.availTick)
           == c.quantum * (t - end) + c.quantum * (end - tick) + c.quantum * (tick - b.availTick);
    assert c.quantum * (t - end) >= 0 && c.quantum * (tick - b.availTick) >= 0;
  }

  /**
   From any level, every run keeps within the supply: the tokens usable by tick `t` are at
   most what the bucket held plus what was poured in since `availTick`, or none at all.
   */
  lemma {:induction false} RunWithinSupply(c: Config, b: Level, ops: seq<Op>, from: int, t: int)
    requires ValidConfig(c) && c.start <= from && Ordered(ops, from)
    requires forall i :: 0 <= i < |ops| ==> ops[i].now >= c.start
    requires b.avail <= c.capacity && b.availTick <= Tick(c, from)
    ensures UsableBy(Grants(c, b, ops), t) <= if Supply(c, b, t) > 0 then Supply(c, b, t) else 0
    decreases |ops|
  {
    if ops != [] {
      TickMonotone(c, from, ops[0].now);
      GrantWithinSupply(c, b, ops[0], t);
      var e := Apply(c, b, ops[0]);
      RunWithinSupply(c, e.level, ops[1..], ops[0].now, t);
      if e.grant.Some? {
        UsableByAppend(e.grant.value, Grants(c, e.level, ops[1..]), t);
      } else {
        assert [] + Grants(c, e.level, ops[1..]) == Grants(c, e.level, ops[1..]);
      }
    }
  }

  /** Main result: from the start, tokens usable by tick `t` never exceed capacity + quantum * t. */
  lemma {:induction false} Conformance(c: Config, ops: seq<Op>, t: nat)
    requires ValidConfig(c) && Ordered(ops, c.start)
    requires forall i :: 0 <= i < |ops| ==> ops[i].now >= c.start
    ensures UsableBy(Grants(c, New(c), ops), t) <= c.capacity + c.quantum * t
  {
    assert Tick(c, c.start) >= 0;
    assert c.quantum * t >= 0;
    RunWithinSupply(c, New(c), ops, c.start, t);
  }

  /** What a window that opens at tick `open` allows by tick `t`: a full bucket, and all that is poured in. */
  function Allowed(c: Config, open: int, t: int): int { c.capacity + c.quantum * (t - open) }

  /** Over a window that opens at time `from`, no run is granted more than a full bucket and what is poured in. */
  ghost predicate KeepsWindow(c: Config, b: Level, from: int)
    requires ValidConfig(c) && c.start <= from
  {
    forall ops: seq<Op>, t: int ::
      Ordered(ops, from) && (forall i :: 0 <= i < |ops| ==> ops[i].now >= c.start) && t >= Tick(c, from)
      ==> UsableBy(Grants(c, b, ops), t) <= Allowed(c, Tick(c, from), t)
  }

  /** A call that looks at a bucket with room does the same once the bucket has been brought up to date. */
  lemma {:induction false} AdjustFirst(c: Config, b: Level, op: Op)
    requires ValidConfig(c) && op.now >= c.start && b.avail < c.capacity
    requires op.Available? || op.count > 0
    ensures Apply(c, b, op) == Apply(c, Adjust(c, b, Tick(c, op.now)), op)
  {
    var tick := Tick(c, op.now);
    var a := Adjust(c, b, tick);
    assert (tick - a.availTick) * c.quantum == 0;
    assert Adjust(c, a, tick) == a;
  }

  lemma {:induction false} SupplyWithin(c: Config, a: Level, tick: int, open: int, t: int)
    requires ValidConfig(c) && a.avail <= c.capacity && a.availTick == tick && open <= tick && open <= t
    ensures Supply(c, a, t) <= Allowed(c, open, t) && Allowed(c, open, t) >= 0
  {
    assert c.quantum * (t - open) == c.quantum * (t - tick) + c.quantum * (tick - open);
    MulMonotone(0, tick - open, c.quantum);
    MulMonotone(0, t - open, c.quantum);
  }

  lemma {:induction false} RunWithin(c: Config, b: Level, ops: seq<Op>, from: int, t: int, bound: int)
    requires ValidConfig(c) && c.start <= from && Ordered(ops, from)
    requires forall i :: 0 <= i < |ops| ==> ops[i].now >= c.start
    requires b.avail <= c.capacity && b.availTick <= Tick(c, from)
    requires Supply(c, b, t) <= bound && 0 <= bound
    ensures UsableBy(Grants(c, b, ops), t) <= bound
  {
    RunWithinSupply(c, b, ops, from, t);
  }

  /** A run whose first call looks at a bucket with room. */
  lemma {:induction false} RefreshedRun(c: Config, b: Level, ops: seq<Op>, open: int, t: int)
    requires ValidConfig(c) && ops != [] && (ops[0].Available? || ops[0].count > 0)
    requires forall i :: 0 <= i < |ops| ==> ops[i].now >= c.start
    requires Ordered(ops[1..], ops[0].now)
    requires b.avail < c.capacity && b.availTick <= Tick(c, ops[0].now) && open <= Tick(c, ops[0].now) && open <= t
    ensures UsableBy(Grants(c, b, ops), t) <= Allowed(c, open, t)
  {
    var op := ops[0];
    var tick := Tick(c, op.now);
    var a := Adjust(c, b, tick);
    AdjustFirst(c, b, op);
    assert Grants(c, b, ops) == Grants(c, a, ops);
    SupplyWithin(c, a, tick, open, t);
    RunWithin(c, a, ops, op.now, t, Allowed(c, open, t));
  }

  /** A bucket below capacity keeps the window bound, however old its `availTick`. */
  lemma {:induction false} RoomKeepsWindow(c: Config, b: Level, ops: seq<Op>, from: int, open: int, t: int)
    requires ValidConfig(c) && c.start <= from && Ordered(ops, from)
    requires forall i :: 0 <= i < |ops| ==> ops[i].now >= c.start
    requires b.avail < c.capacity && b.availTick <= Tick(c, from) && open <= Tick(c, from) && open <= t
    ensures UsableBy(Grants(c, b, ops), t) <= Allowed(c, open, t)
    decreases |ops|
  {
    if ops == [] {
      MulMonotone(0, t - open, c.quantum);
    } else {
      TickMonotone(c, from, ops[0].now);
      if ops[0].Available? || ops[0].count > 0 {
        RefreshedRun(c, b, ops, open, t);
      } else {
        assert [] + Grants(c, b, ops[1..]) == Grants(c, b, ops[1..]);
        RoomKeepsWindow(c, b, ops[1..], ops[0].now, open, t);
      }
    }
  }

  /** Emptying a full bucket whose tick is stale leaves that tick behind, so one more token comes at once. */
  lemma {:induction false} FullStaleGrants(c: Config, b: Level, from: int)
    requires ValidConfig(c) && c.start <= from && b.avail == c.capacity && b.availTick < Tick(c, from)
    ensures var ops := [TakeAvailable(from, c.capacity), TakeAvailable(from, 1)];
            Ordered(ops, from) && UsableBy(Grants(c, b, ops), Tick(c, from)) == c.capacity + 1
  {
    var tick := Tick(c, from);
    var first, second := TakeAvailable(from, c.capacity), TakeAvailable(from, 1);
    var ops := [first, second];
    assert ops[1..] == [second] && [second][1..] == [];
    assert Ordered([second], from);
    var e := Apply(c, b, first);
    assert e.level == Level(0, b.availTick) && e.grant == Some(Grant(c.capacity, tick));
    MulMonotone(1, (tick - b.availTick), c.quantum);
    var f := Apply(c, e.level, second);
    assert f.grant == Some(Grant(1, tick));
    assert Grants(c, e.level, [second]) == [Grant(1, tick)] + Grants(c, f.level, []);
    UsableByAppend(Grant(1, tick), Grants(c, f.level, []), tick);
    UsableByAppend(Grant(c.capacity, tick), Grants(c, e.level, [second]), tick);
  }

  /** A current bucket keeps the window bound, even when full. */
  lemma {:induction false} CurrentKeepsWindow(c: Config, b: Level, ops: seq<Op>, from: int, open: int, t: int)
    requires ValidConfig(c) && c.start <= from && b.avail <= c.capacity && b.availTick == open == Tick(c, from)
    requires Ordered(ops, from) && t >= open
    requires forall i :: 0 <= i < |ops| ==> ops[i].now >= c.start
    ensures UsableBy(Grants(c, b, ops), t) <= Allowed(c, open, t)
  {
    SupplyWithin(c, b, open, open, t);
    RunWithin(c, b, ops, from, t, Allowed(c, open, t));
  }

  lemma {:induction false} WindowHolds(c: Config, b: Level, ops: seq<Op>, from: int, open: int, t: int)
    requires ValidConfig(c) && c.start <= from && b.avail <= c.capacity && b.availTick <= open == Tick(c, from)
    requires b.avail < c.capacity || b.availTick == open
    requires Ordered(ops, from) && t >= open
    requires forall i :: 0 <= i < |ops| ==> ops[i].now >= c.start
    ensures UsableBy(Grants(c, b, ops), t) <= Allowed(c, open, t)
  {
    if b.avail < c.capacity {
      RoomKeepsWindow(c, b, ops, from, open, t);
    } else {
      CurrentKeepsWindow(c, b, ops, from, open, t);
    }
  }

  lemma {:induction false} StaleBreaksWindow(c: Config, b: Level, from: int)
    requires ValidConfig(c) && c.start <= from && b.avail == c.capacity && b.availTick < Tick(c, from)
    ensures !KeepsWindow(c, b, from)
  {
    FullStaleGrants(c, b, from);
    var ops := [TakeAvailable(from, c.capacity), TakeAvailable(from, 1)];
    var t := Tick(c, from);
    assert c.quantum * (t - t) == 0;
    assert UsableBy(Grants(c, b, ops), t) > Allowed(c, t, t);
  }

  /**
   Main result: the window bound holds of every run, from a window opening at `from`, exactly
   when the bucket has room (so that the next call refreshes `availTick`) or is current.
   */
  lemma {:induction false} WindowIff(c: Config, b: Level, from: int)
    requires ValidConfig(c) && c.start <= from && b.avail <= c.capacity && b.availTick <= Tick(c, from)
    ensures KeepsWindow(c, b, from) <==> b.avail < c.capacity || b.availTick == Tick(c, from)
  {
    if b.avail < c.capacity || b.availTick == Tick(c, from) {
      forall ops: seq<Op>, t: int
        | Ordered(ops, from) && (forall i :: 0 <= i < |ops| ==> ops[i].now >= c.start) && t >= Tick(c, from)
        ensures UsableBy(Grants(c, b, ops), t) <= Allowed(c, Tick(c, from), t)
      {
        WindowHolds(c, b, ops, from, Tick(c, from), t);
      }
    } else {
      StaleBreaksWindow(c, b, from);
    }
  }

  /** A bucket left alone while full hands out its capacity twice within one tick. */
  lemma {:induction false} WindowCounterexample()
    ensures var c := Config(0, 10, 1, 1);
            var ops := [TakeAvailable(100, 10), TakeAvailable(100, 10)];
            && ValidConfig(c) && Ordered(ops, 100)
            && UsableBy(Grants(c, New(c), ops), 100) == 20 > c.capacity + c.quantum * (100 - Tick(c, 100))
  {
    var c := Config(0, 10, 1, 1);
    var op := TakeAvailable(100, 10);
    var ops := [op, op];
    assert ops[1..] == [op] && [op][1..] == [];
    assert Ordered([op], 100);
    assert Tick(c, 100) == 100;
    assert Apply(c, New(c), op) == Effect(Level(0, 0), Some(Grant(10, 100)), 0, true);
    assert Apply(c, Level(0, 0), op) == Effect(Level(0, 100), Some(Grant(10, 100)), 0, true);
    assert Grants(c, Level(0, 100), []) == [];
    assert Grants(c, Level(0, 0), [op]) == [Grant(10, 100)] + [];
    UsableByAppend(Grant(10, 100), [], 100);
    UsableByAppend(Grant(10, 100), [Grant(10, 100)] + [], 100);
  }

  // ---------- the object ----------

  class Bucket {
    const config: Config
    var avail: int
    var availTick: int

    ghost function View(): Level
      reads this
    {
      Level(avail, availTick)
    }

    ghost predicate Valid()
      reads this
    {
      ValidConfig(config) && avail <= config.capacity
    }

    constructor (start: int, interval: int, capacity: int, quantum: int)
      requires interval > 0 && capacity > 0 && quantum > 0
      ensures Valid() && config == Config(start, capacity, quantum, interval) && View() == New(config)
    {
      config := Config(start, capacity, quantum, interval);
      avail, availTick := capacity, 0;
    }

    method AdjustTo(now: int) returns (currentTick: int)
      requires Valid() && now >= config.start
      modifies this
      ensures Valid() && currentTick == Tick(config, now)
      ensures View() == Adjust(config, old(View()), currentTick)
    {
      currentTick := (now - config.start) / config.interval;
      if avail >= config.capacity { return; }
      avail := avail + (currentTick - availTick) * config.quantum;
      if avail > config.capacity {
        avail := config.capacity;
      }
      availTick := currentTick;
    }

    method DoTake(now: int, count: int, maxWait: int) returns (wait: int, ok: bool)
      requires Valid() && now >= config.start
      modifies this
      ensures Valid()
      ensures var e := Apply(config, old(View()), Take(now, count, maxWait));
              View() == e.level && wait == e.wait && ok == e.ok
    {
      if count <= 0 { return 0, true; }
      var currentTick := AdjustTo(now);
      var left := avail - count;
      if left >= 0 {
        avail := left;
        return 0, true;
      }
      var endTick := currentTick + (-left + config.quantum - 1) / config.quantum;
      var endTime := config.start + endTick * config.interval;
      wait := endTime - now;
      if wait > maxWait { return 0, false; }
      avail := left;
      return wait, true;
    }

    method DoTakeAvailable(now: int, count: int) returns (taken: int)
      requires Valid() && now >= config.start
      modifies this
      ensures Valid()
      ensures var e := Apply(config, old(View()), TakeAvailable(now, count));
              View() == e.level && taken == match e.grant case None => 0 case Some(g) => g.count
    {
      if count <= 0 { return 0; }
      var _ := AdjustTo(now);
      if avail <= 0 { return 0; }
      taken := count;
      if taken > avail {
        taken := avail;
      }
      avail := avail - taken;
    }
  }
}
