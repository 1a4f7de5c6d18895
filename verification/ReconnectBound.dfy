/** Schedules in which every dial fails, started by one reader on an open connection and
    disturbed by nothing but calls of Disconnect: how many dials they make, how long they are,
    and where they end. */
module ReconnectBound {
  import opened Wrappers
  import opened Sums
  import opened Reconnect

  /** The state left by a successful Start: connection `conn` open, one reader about to run. */
  function Started(conn: nat): State {
    State(Client(Some(conn), true, 0, false), None, false, [Thread(Reader, Top)], 0)
  }

  predicate Failing(s: State, a: Action) {
    match a
    case Call(role) => role == Disconnector
    case Go(i, outcome) => i < |s.threads| && s.threads[i].pc == Dial ==> outcome.Failure?
  }

  predicate FailingRun(max: int, s: State, acts: seq<Action>)
    decreases |acts|
  {
    acts == [] ||
    (Failing(s, acts[0]) && Next(max, s, acts[0]).Some? && FailingRun(max, Next(max, s, acts[0]).value, acts[1..]))
  }

  /** The sum after goroutine `i` moved on and started at most one other. */
  lemma SumStep(ts: seq<Thread>, i: nat, t: Thread, started: Option<Thread>, w: Thread -> int)
    requires i < |ts|
    ensures Sum(ts[i := t] + (if started.Some? then [started.value] else []), w)
            == Sum(ts, w) - w(ts[i]) + w(t) + (if started.Some? then w(started.value) else 0)
  {
    SumUpdate(ts, i, t, w);
    if started.Some? {
      SumAppend(ts[i := t], started.value, w);
    } else {
      assert ts[i := t] + [] == ts[i := t];
    }
  }

  // ---------- what the goroutines contribute ----------

  predicate Expected(t: Thread) {
    match t.role
    case Reader => t.pc.Top? || t.pc.Look? || t.pc.Read? || InHandleReconnect(t.pc)
    case Handler => InHandleReconnect(t.pc)
    case Disconnector => t.pc.Cancel? || t.pc.CloseWait? || t.pc.CloseConn? || t.pc.CloseFlag? || t.pc.Done?
    case _ => false
  }

  predicate InHandleReconnect(pc: Pc) {
    match pc
    case Enter | Mark | Drop | Decide | Count | DialWait | Dial | Respawn | Done => true
    case _ => false
  }

  /** Counted its attempt, but has not dialled yet. */
  ghost function Dialling(t: Thread): int {
    if t.pc.DialWait? || t.pc.Dial? then 1 else 0
  }

  /** Passed the limit check, but has not counted its attempt yet. */
  ghost function Past(t: Thread): int {
    if t.pc.Count? then 1 else 0
  }

  /** The reader, the handler it is about to start, and the running handlers. */
  ghost function Chains(t: Thread): int {
    if t.role.Reader? then (if t.pc.DialWait? || t.pc.Dial? || t.pc.Respawn? then 2 else 1)
    else if t.role.Disconnector? || t.pc.Done? then Past(t) else 1
  }

  /** Goroutines that will not end before the client gives up. */
  ghost function Stubborn(t: Thread): int {
    if (t.role.Handler? && !t.pc.Done?) || t.pc.Respawn? then 1 else 0
  }

  /** How many more steps a goroutine takes at most before it ends or counts another attempt. */
  ghost function Fuel(gaveUp: bool, t: Thread): int {
    if t.role.Reader? then
      match t.pc
      case Count => 17
      case DialWait => 16
      case Dial => 15
      case Respawn => 14
      case Top => if gaveUp then 2 else 9
      case Look => if gaveUp then 1 else 8
      case Read => 7
      case Enter => 6
      case Mark => 5
      case Drop => 4
      case Decide => 3
      case _ => 0
    else
      match t.pc
      case Count => 8
      case DialWait => 7
      case Dial => 6
      case Respawn => 5
      case Enter | Cancel => 4
      case Mark | CloseWait => 3
      case Drop | CloseConn => 2
      case Decide | CloseFlag => 1
      case _ => 0
  }

  ghost function If(b: bool): int {
    if b then 1 else 0
  }

  /** How a step of goroutine `t` with effect `e` changes the fields and the contributions. */
  ghost predicate Tallies(max: int, c: Client, t: Thread, e: Effect) {
    var u, started, passes := t.(pc := e.pc), If(e.started.Some?), t.pc.Decide? && e.pc.Count?;
    && e.c.reconnectCount == c.reconnectCount + If(t.pc.Count?)
    && Dialling(u) == Dialling(t) + If(t.pc.Count?) - If(t.pc.Dial?)
    && Past(u) == Past(t) + If(passes) - If(t.pc.Count?)
    && Chains(u) + started <= Chains(t) + If(t.pc.Count?)
    && (passes ==> c.reconnectCount < max && Past(t) < Chains(t))
  }

  /** gaveUp is set at the limit and then kept; a stubborn goroutine leaves a stubborn one behind. */
  ghost predicate Endings(max: int, c: Client, cancelled: bool, t: Thread, e: Effect) {
    var u, started := t.(pc := e.pc), If(e.started.Some?);
    && Expected(u) && (e.started.Some? ==> e.started.value == Thread(Handler, Enter))
    && (e.c.gaveUp == c.gaveUp || (e.c.gaveUp && c.reconnectCount >= max))
    && (e.c.gaveUp || Stubborn(u) + started >= Stubborn(t))
    && (t.pc.Dial? ==> Stubborn(u) == 1)
    && (u.role.Reader? && u.pc.Done? ==> c.gaveUp || cancelled)
  }

  /** A step uses up fuel; passing the check buys 15 more, a delivered message 3. */
  ghost predicate Burns(c: Client, t: Thread, delivered: bool, e: Effect) {
    var u, started, passes := t.(pc := e.pc), If(e.started.Some?), t.pc.Decide? && e.pc.Count?;
    Fuel(e.c.gaveUp, u) + 4 * started + 1 <= Fuel(c.gaveUp, t) + 15 * If(passes) + 3 * If(t.pc.Read? && delivered)
  }

  lemma LocalTallies(max: int, c: Client, free: bool, cancelled: bool, t: Thread, outcome: Outcome)
    requires Expected(t) && Local(max, c, free, cancelled, t, outcome).Some?
    requires t.pc.Dial? ==> outcome.Failure?
    ensures Tallies(max, c, t, Local(max, c, free, cancelled, t, outcome).value)
  {
  }

  lemma LocalEndings(max: int, c: Client, free: bool, cancelled: bool, t: Thread, outcome: Outcome)
    requires Expected(t) && Local(max, c, free, cancelled, t, outcome).Some?
    requires t.pc.Dial? ==> outcome.Failure?
    ensures Endings(max, c, cancelled, t, Local(max, c, free, cancelled, t, outcome).value)
  {
    LocalRoles(max, c, free, cancelled, t, outcome);
  }

  lemma LocalRoles(max: int, c: Client, free: bool, cancelled: bool, t: Thread, outcome: Outcome)
    requires Expected(t) && Local(max, c, free, cancelled, t, outcome).Some?
    requires t.pc.Dial? ==> outcome.Failure?
    ensures var e := Local(max, c, free, cancelled, t, outcome).value;
            Expected(t.(pc := e.pc)) && (e.started.Some? ==> e.started.value == Thread(Handler, Enter))
  {
  }

  lemma LocalFuel(max: int, c: Client, free: bool, cancelled: bool, t: Thread, outcome: Outcome)
    requires Expected(t) && Local(max, c, free, cancelled, t, outcome).Some?
    requires t.pc.Dial? ==> outcome.Failure?
    ensures Burns(c, t, outcome.Success?, Local(max, c, free, cancelled, t, outcome).value)
  {
  }

  // ---------- the invariant and the potential ----------

  /** The most reconnection dials a failing schedule can make. */
  function Limit(max: int): nat {
    if max >= 1 then 2 * max - 1 else 0
  }

  ghost predicate Roles(ts: seq<Thread>) {
    |ts| > 0 && (forall i :: 0 <= i < |ts| ==> Expected(ts[i]) && (ts[i].role == Reader <==> i == 0))
  }

  ghost predicate Balance(max: int, s: State) {
    && s.dials + Sum(s.threads, Dialling) == s.c.reconnectCount
    && Sum(s.threads, Chains) <= s.c.reconnectCount + 1
    && s.c.reconnectCount + Sum(s.threads, Past) <= Limit(max)
    && (s.c.gaveUp ==> s.c.reconnectCount >= max)
    && (s.c.gaveUp || s.dials == 0 || Sum(s.threads, Stubborn) > 0)
  }

  ghost predicate Inv(max: int, s: State) {
    && Roles(s.threads)
    && Balance(max, s)
    && (s.threads[0].pc == Done ==> s.c.gaveUp || s.cancelled)
  }

  ghost function FuelWhen(gaveUp: bool): Thread -> int {
    t => Fuel(gaveUp, t)
  }

  ghost function Potential(max: int, s: State): int {
    15 * (Limit(max) - s.c.reconnectCount - Sum(s.threads, Past)) + Sum(s.threads, FuelWhen(s.c.gaveUp))
  }

  /** Actions that are not part of reconnecting: delivered messages and calls of Disconnect. */
  ghost function Extra(s: State, a: Action): nat {
    match a
    case Call(_) => 5
    case Go(i, outcome) => if i < |s.threads| && s.threads[i].pc == Read && outcome.Success? then 3 else 0
  }

  lemma CallKeepsInv(max: int, s: State)
    requires Inv(max, s)
    ensures var t := s.(threads := s.threads + [Thread(Disconnector, Cancel)]);
            Inv(max, t) && Potential(max, t) == Potential(max, s) + 4
  {
  }

  lemma StepKeepsBalance(max: int, s: State, i: nat, e: Effect)
    requires Balance(max, s) && i < |s.threads|
    requires Tallies(max, s.c, s.threads[i], e) && Endings(max, s.c, s.cancelled, s.threads[i], e)
    ensures Balance(max, After(s, i, e))
  {
    var ts, u := s.threads, s.threads[i].(pc := e.pc);
    SumStep(ts, i, u, e.started, Dialling);
    SumStep(ts, i, u, e.started, Chains);
    SumStep(ts, i, u, e.started, Past);
    SumStep(ts, i, u, e.started, Stubborn);
    SumBelow(ts, Past, Chains, i);
    SumAtLeast(ts, Stubborn, i);
  }

  lemma StepSpendsFuel(max: int, s: State, i: nat, delivered: bool, e: Effect)
    requires i < |s.threads|
    requires Tallies(max, s.c, s.threads[i], e) && Endings(max, s.c, s.cancelled, s.threads[i], e)
    requires Burns(s.c, s.threads[i], delivered, e)
    ensures Potential(max, After(s, i, e)) + 1
            <= Potential(max, s) + 3 * If(s.threads[i].pc == Read && delivered)
  {
    var ts, u := s.threads, s.threads[i].(pc := e.pc);
    SumStep(ts, i, u, e.started, Past);
    SumStep(ts, i, u, e.started, FuelWhen(e.c.gaveUp));
    if e.c.gaveUp != s.c.gaveUp {
      SumBelow(ts, FuelWhen(true), FuelWhen(false), i);
    }
  }

  lemma StepKeepsRoles(max: int, s: State, i: nat, e: Effect)
    requires Inv(max, s) && i < |s.threads|
    requires Tallies(max, s.c, s.threads[i], e) && Endings(max, s.c, s.cancelled, s.threads[i], e)
    ensures var t := After(s, i, e);
            Roles(t.threads) && (t.threads[0].pc == Done ==> t.c.gaveUp || t.cancelled)
  {
  }

  lemma ActionKeepsInv(max: int, s: State, a: Action)
    requires Inv(max, s) && Failing(s, a) && Next(max, s, a).Some?
    ensures var t := Next(max, s, a).value;
            Inv(max, t) && Potential(max, t) + 1 <= Potential(max, s) + Extra(s, a)
  {
    match a
    case Call(_) => CallKeepsInv(max, s);
    case Go(i, outcome) =>
      LocalTallies(max, s.c, s.lock.None?, s.cancelled, s.threads[i], outcome);
      LocalEndings(max, s.c, s.lock.None?, s.cancelled, s.threads[i], outcome);
      LocalFuel(max, s.c, s.lock.None?, s.cancelled, s.threads[i], outcome);
      var e := Local(max, s.c, s.lock.None?, s.cancelled, s.threads[i], outcome).value;
      StepKeepsRoles(max, s, i, e);
      StepKeepsBalance(max, s, i, e);
      StepSpendsFuel(max, s, i, outcome.Success?, e);
  }

  lemma PotentialNonNegative(max: int, s: State)
    requires Inv(max, s)
    ensures Potential(max, s) >= 0
  {
    SumAtLeast(s.threads, FuelWhen(s.c.gaveUp), 0);
  }

  lemma StartedInv(max: int, conn: nat)
    ensures Inv(max, Started(conn)) && Potential(max, Started(conn)) == 15 * Limit(max) + 9
  {
  }

  // ---------- main results ----------

  ghost function ExtraOf(max: int, s: State, acts: seq<Action>): nat
    requires FailingRun(max, s, acts)
    decreases |acts|
  {
    if acts == [] then 0 else Extra(s, acts[0]) + ExtraOf(max, Next(max, s, acts[0]).value, acts[1..])
  }

  lemma {:induction false} RunKeepsInv(max: int, s: State, acts: seq<Action>)
    requires Inv(max, s) && FailingRun(max, s, acts)
    ensures Exec(max, s, acts).Some?
    ensures var t := Exec(max, s, acts).value;
            Inv(max, t) && Potential(max, t) + |acts| <= Potential(max, s) + ExtraOf(max, s, acts)
    decreases |acts|
  {
    if acts != [] {
      ActionKeepsInv(max, s, acts[0]);
      RunKeepsInv(max, Next(max, s, acts[0]).value, acts[1..]);
    }
  }

  /** However the goroutines interleave, at most 2 * maxReconnects - 1 reconnection dials are made. */
  lemma DialBound(max: int, conn: nat, acts: seq<Action>)
    requires FailingRun(max, Started(conn), acts)
    ensures Exec(max, Started(conn), acts).Some?
    ensures Exec(max, Started(conn), acts).value.dials <= Limit(max)
  {
    StartedInv(max, conn);
    RunKeepsInv(max, Started(conn), acts);
    var t := Exec(max, Started(conn), acts).value;
    SumAtLeast(t.threads, Dialling, 0);
    SumAtLeast(t.threads, Past, 0);
  }

  /** Every such schedule ends: its length is bounded by the limit, the messages delivered
      before the connection broke and the calls of Disconnect. */
  lemma LengthBound(max: int, conn: nat, acts: seq<Action>)
    requires FailingRun(max, Started(conn), acts)
    ensures |acts| <= 15 * Limit(max) + 9 + ExtraOf(max, Started(conn), acts)
  {
    StartedInv(max, conn);
    RunKeepsInv(max, Started(conn), acts);
    PotentialNonNegative(max, Exec(max, Started(conn), acts).value);
  }

  /** Where it ends: all goroutines are done; the client has given up after at least maxReconnects
      dials, unless Disconnect stopped the reader before the first one. */
  lemma FinalStates(max: int, conn: nat, acts: seq<Action>)
    requires FailingRun(max, Started(conn), acts)
    requires Exec(max, Started(conn), acts).Some? && Stuck(max, Exec(max, Started(conn), acts).value)
    ensures var t := Exec(max, Started(conn), acts).value;
            && AllDone(t)
            && (if t.c.gaveUp then max <= t.dials <= Limit(max) || max <= t.dials == 0 else t.cancelled && t.dials == 0)
  {
    StartedInv(max, conn);
    RunKeepsInv(max, Started(conn), acts);
    EverySchedule(max, Started(conn), acts);
    var t := Exec(max, Started(conn), acts).value;
    if !AllDone(t) {
      NoDeadlock(max, t);
    }
    DialBound(max, conn, acts);
    SumOfZeros(t.threads, Dialling);
    SumOfZeros(t.threads, Stubborn);
  }
}
