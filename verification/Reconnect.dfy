/** The WebSocket client of pyth/pythwebsocket.go: Connect, Disconnect, Reset and Start called
    from outside, readMessages and handleReconnect running as goroutines. A state holds the
    shared fields, the holder of connMutex and one program counter per goroutine; a schedule
    is a sequence of single steps of single goroutines and of outside calls. */
module Reconnect {
  import opened Wrappers

  /** The fields of WebSocketClient that the protocol reads and writes. */
  datatype Client = Client(conn: Option<nat>, connected: bool, reconnectCount: int, gaveUp: bool)

  // What a call of Connect, Reset or Disconnect, or the locked part of handleReconnect, does as a whole.

  function AfterConnect(c: Client, conn: nat): Client {
    Client(Some(conn), true, 0, false)
  }

  function AfterReset(c: Client): Client {
    c.(gaveUp := false, reconnectCount := 0)
  }

  function AfterDisconnect(c: Client): Client {
    if c.conn.Some? then c.(conn := None, connected := false) else c
  }

  function AfterLosing(max: int, c: Client): Client {
    Client(None, false, c.reconnectCount, c.gaveUp || c.reconnectCount >= max)
  }

  /** The object itself, with the sequential behaviour of its methods. */
  class WebSocketClient {
    var conn: Option<nat>
    var connected: bool
    var reconnectCount: int
    var gaveUp: bool
    const maxReconnects: int

    ghost function Snapshot(): Client
      reads this
    {
      Client(conn, connected, reconnectCount, gaveUp)
    }

    constructor (maxReconnects: int)
      ensures Snapshot() == Client(None, false, 0, false)
      ensures this.maxReconnects == maxReconnects
    {
      this.maxReconnects := maxReconnects;
      conn, connected, reconnectCount, gaveUp := None, false, 0, false;
    }

    method Connect(dialled: Option<nat>) returns (ok: bool)
      modifies this
      ensures ok == dialled.Some?
      ensures Snapshot() == if ok then AfterConnect(old(Snapshot()), dialled.value) else old(Snapshot())
    {
      if dialled.None? {
        return false;
      }
      conn := dialled;
      connected := true;
      reconnectCount := 0;
      gaveUp := false;
      ok := true;
    }

    method Reset()
      modifies this
      ensures Snapshot() == AfterReset(old(Snapshot()))
    {
      gaveUp := false;
      reconnectCount := 0;
    }

    method Disconnect()
      modifies this
      ensures Snapshot() == AfterDisconnect(old(Snapshot()))
    {
      if conn.Some? {
        conn := None;
        connected := false;
      }
    }

    /** The part of handleReconnect that runs under connMutex; `proceed` says whether a dial follows. */
    method LoseConnection() returns (proceed: bool)
      modifies this
      ensures Snapshot() == AfterLosing(maxReconnects, old(Snapshot()))
      ensures proceed == (!old(gaveUp) && old(reconnectCount) < maxReconnects)
      ensures proceed == !gaveUp
    {
      connected := false;
      if conn.Some? {
        conn := None;
      }
      if gaveUp {
        return false;
      }
      if reconnectCount >= maxReconnects {
        gaveUp := true;
        return false;
      }
      proceed := true;
    }
  }

  // ---------- goroutines ----------

  datatype Role = Reader | Handler | Connector | Starter | Disconnector | Resetter

  /** Program counters, with the line each one is about to execute. */
  datatype Pc =
    | Top          // 257  select on ctx.Done
    | Look         // 264  read gaveUp and conn under RLock
    | Read         // 286  conn.ReadJSON
    | Enter        // 366  connMutex.Lock
    | Mark         // 367  connected = false
    | Drop         // 368  conn = nil
    | Decide       // 374  gaveUp and limit checks, Unlock
    | Count        // 388  reconnectCount++ (no lock), then sleep
    | DialWait     // 86   connMutex.Lock
    | Dial         // 97   dialer.Dial
    | SetConn(conn: nat) // 102
    | SetConnected // 103
    | SetCount     // 104
    | SetGaveUp    // 105  and the deferred Unlock
    | Respawn      // 398  go handleReconnect
    | Zero         // 414  reconnectCount = 0 (no lock)
    | Resubscribe  // 243  Start fails when this fails
    | Restart      // 417, 249  go readMessages
    | StartLook    // 231  IsConnected
    | Cancel       // 129
    | CloseWait    // 131
    | CloseConn    // 134
    | CloseFlag    // 137
    | ResetWait    // 121
    | ResetGaveUp  // 123
    | ResetCount   // 124
    | Done

  datatype Thread = Thread(role: Role, pc: Pc)

  datatype State = State(c: Client, lock: Option<nat>, cancelled: bool, threads: seq<Thread>, dials: nat)

  /** What the network answers to a read, a dial or a resubscription. */
  datatype Outcome = Success(conn: nat) | Failure

  datatype Action = Go(tid: nat, outcome: Outcome) | Call(role: Role)

  predicate Holding(pc: Pc) {
    match pc
    case Mark | Drop | Decide | Dial | SetConn(_) | SetConnected | SetCount | SetGaveUp => true
    case CloseConn | CloseFlag | ResetGaveUp | ResetCount => true
    case _ => false
  }

  datatype Locking = Keep | Take | Free

  /** What one step of one goroutine does: its next program counter, the fields, connMutex, and
      the goroutine it starts. */
  datatype Effect = Effect(pc: Pc, c: Client, locking: Locking, started: Option<Thread>)

  /** Where a goroutine continues when handleReconnect returns. */
  function Return(role: Role): Pc {
    if role == Reader then Top else Done
  }

  function Goto(pc: Pc, c: Client): Option<Effect> {
    Some(Effect(pc, c, Keep, None))
  }

  function Lock(free: bool, pc: Pc, c: Client): Option<Effect> {
    if free then Some(Effect(pc, c, Take, None)) else None
  }

  function Unlock(pc: Pc, c: Client): Option<Effect> {
    Some(Effect(pc, c, Free, None))
  }

  /** The step of a goroutine `t`; None while it waits for connMutex or has ended. */
  function Local(max: int, c: Client, free: bool, cancelled: bool, t: Thread, outcome: Outcome): Option<Effect> {
    var reconnecting := t.role.Reader? || t.role.Handler?;
    match t.pc
    case Top => Goto(if cancelled then Done else Look, c)
    case Look =>
      if !free then None else
      Goto(if c.gaveUp then Done else if c.conn.None? then Enter else Read, c)
    case Read => Goto(if outcome.Success? then Top else Enter, c)
    case Enter => Lock(free, Mark, c)
    case Mark => Goto(Drop, c.(connected := false))
    case Drop => Goto(Decide, c.(conn := None))
    case Decide =>
      if c.gaveUp then Unlock(Return(t.role), c)
      else if c.reconnectCount >= max then Unlock(Return(t.role), c.(gaveUp := true))
      else Unlock(Count, c)
    case Count => Goto(DialWait, c.(reconnectCount := c.reconnectCount + 1))
    case DialWait => Lock(free, Dial, c)
    case Dial =>
      if outcome.Success? then Goto(SetConn(outcome.conn), c)
      else Unlock(if reconnecting then Respawn else Done, c)
    case SetConn(conn) => Goto(SetConnected, c.(conn := Some(conn)))
    case SetConnected => Goto(SetCount, c.(connected := true))
    case SetCount => Goto(SetGaveUp, c.(reconnectCount := 0))
    case SetGaveUp =>
      Unlock(if reconnecting then Zero else if t.role == Starter then Resubscribe else Done, c.(gaveUp := false))
    case Respawn => Some(Effect(Return(t.role), c, Keep, Some(Thread(Handler, Enter))))
    case Zero => Goto(Restart, c.(reconnectCount := 0))
    case Resubscribe => Goto(if outcome.Success? then Restart else Done, c)
    case Restart => Some(Effect(Return(t.role), c, Keep, Some(Thread(Reader, Top))))
    case StartLook =>
      if !free then None else Goto(if c.connected && c.conn.Some? then Resubscribe else DialWait, c)
    case Cancel => Goto(CloseWait, c)
    case CloseWait => Lock(free, CloseConn, c)
    case CloseConn =>
      if c.conn.Some? then Goto(CloseFlag, c.(conn := None)) else Unlock(Done, c)
    case CloseFlag => Unlock(Done, c.(connected := false))
    case ResetWait => Lock(free, ResetGaveUp, c)
    case ResetGaveUp => Goto(ResetCount, c.(gaveUp := false))
    case ResetCount => Unlock(Done, c.(reconnectCount := 0))
    case Done => None
  }

  /** The state after goroutine `i` took a step with effect `e`. */
  function After(s: State, i: nat, e: Effect): State
    requires i < |s.threads|
  {
    var t := s.threads[i];
    State(e.c,
          match e.locking case Keep => s.lock case Take => Some(i) case Free => None,
          s.cancelled || t.pc == Cancel,
          s.threads[i := t.(pc := e.pc)] + (if e.started.Some? then [e.started.value] else []),
          s.dials + if t.pc == Dial then 1 else 0)
  }

  function Step(max: int, s: State, i: nat, outcome: Outcome): Option<State>
    requires i < |s.threads|
  {
    match Local(max, s.c, s.lock.None?, s.cancelled, s.threads[i], outcome)
    case None => None
    case Some(e) => Some(After(s, i, e))
  }

  /** What the holder of connMutex leaves behind, and where it is, when it runs until it unlocks. */
  function Section(max: int, c: Client, t: Thread, outcome: Outcome, steps: nat): (Client, Pc)
    decreases steps
  {
    if steps == 0 || !Holding(t.pc) || Local(max, c, false, false, t, outcome).None? then (c, t.pc) else
    var e := Local(max, c, false, false, t, outcome).value;
    Section(max, e.c, t.(pc := e.pc), outcome, steps - 1)
  }

  function EntryPoint(role: Role): Option<Pc> {
    match role
    case Connector => Some(DialWait)
    case Starter => Some(StartLook)
    case Disconnector => Some(Cancel)
    case Resetter => Some(ResetWait)
    case Reader | Handler => None
  }

  function Next(max: int, s: State, a: Action): Option<State> {
    match a
    case Go(i, outcome) => if i < |s.threads| then Step(max, s, i, outcome) else None
    case Call(role) =>
      if EntryPoint(role).Some? then Some(s.(threads := s.threads + [Thread(role, EntryPoint(role).value)])) else None
  }

  /** The state after a schedule, None when the schedule names a step that cannot be taken. */
  function Exec(max: int, s: State, acts: seq<Action>): Option<State>
    decreases |acts|
  {
    if acts == [] then Some(s) else
    match Next(max, s, acts[0])
    case None => None
    case Some(s') => Exec(max, s', acts[1..])
  }

  // ---------- safety of every schedule ----------

  predicate Consistent(c: Client) {
    (c.connected <==> c.conn.Some?) && (c.gaveUp ==> c.conn.None?)
  }

  /** What holds of the fields while the holder of connMutex is at `pc`. */
  predicate MidSection(pc: Pc, c: Client) {
    match pc
    case Drop => !c.connected && (c.gaveUp ==> c.conn.None?)
    case Decide => !c.connected && c.conn.None?
    case SetConnected => c.conn.Some?
    case SetCount | SetGaveUp => c.conn.Some? && c.connected
    case CloseFlag => c.conn.None?
    case _ => Consistent(c)
  }

  ghost predicate Safe(s: State) {
    && (forall i :: 0 <= i < |s.threads| ==> (Holding(s.threads[i].pc) <==> s.lock == Some(i)))
    && match s.lock
       case None => Consistent(s.c)
       case Some(i) => i < |s.threads| && MidSection(s.threads[i].pc, s.c)
  }

  lemma LocalKeepsFields(max: int, c: Client, free: bool, cancelled: bool, t: Thread, outcome: Outcome)
    requires Local(max, c, free, cancelled, t, outcome).Some?
    requires if Holding(t.pc) then !free && MidSection(t.pc, c) else (free ==> Consistent(c))
    ensures var e := Local(max, c, free, cancelled, t, outcome).value;
            && (e.started.Some? ==> !Holding(e.started.value.pc))
            && (e.locking.Take? ==> free)
            && (e.locking.Free? ==> Holding(t.pc))
            && (Holding(e.pc) <==> e.locking.Take? || (e.locking.Keep? && Holding(t.pc)))
            && (if Holding(e.pc) then MidSection(e.pc, e.c)
                else if Holding(t.pc) then Consistent(e.c)
                else e.c == c.(reconnectCount := e.c.reconnectCount))
  {
  }

  lemma StepKeepsSafe(max: int, s: State, a: Action)
    requires Safe(s) && Next(max, s, a).Some?
    ensures Safe(Next(max, s, a).value)
  {
    match a
    case Call(_) =>
    case Go(i, outcome) =>
      LocalKeepsFields(max, s.c, s.lock.None?, s.cancelled, s.threads[i], outcome);
  }

  // The locked sections of the goroutines do what the methods of WebSocketClient do; by
  // LocalKeepsFields nobody else touches conn, connected or gaveUp in between.

  lemma ConnectSection(max: int, c: Client, role: Role, conn: nat)
    ensures Section(max, c, Thread(role, Dial), Success(conn), 5).0 == AfterConnect(c, conn)
    ensures Section(max, c, Thread(role, Dial), Failure, 5).0 == c
  {
  }

  lemma HandleReconnectSection(max: int, c: Client, role: Role)
    ensures var lost := AfterLosing(max, c);
            Section(max, c, Thread(role, Mark), Failure, 3) == (lost, if lost.gaveUp then Return(role) else Count)
  {
  }

  lemma DisconnectAndResetSections(max: int, c: Client, role: Role)
    ensures Section(max, c, Thread(role, CloseConn), Failure, 2) == (AfterDisconnect(c), Done)
    ensures Section(max, c, Thread(role, ResetGaveUp), Failure, 2) == (AfterReset(c), Done)
  {
  }

  /** In every interleaving of readers, handlers and callers: whenever connMutex is free,
      connected says exactly that there is a connection, and a client that gave up has none. */
  lemma {:induction false} EverySchedule(max: int, s: State, acts: seq<Action>)
    requires Safe(s) && Exec(max, s, acts).Some?
    ensures var t := Exec(max, s, acts).value; Safe(t) && (t.lock.None? ==> Consistent(t.c))
    decreases |acts|
  {
    if acts != [] {
      StepKeepsSafe(max, s, acts[0]);
      EverySchedule(max, Next(max, s, acts[0]).value, acts[1..]);
    }
  }

  ghost predicate AllDone(s: State) {
    forall t <- s.threads :: t.pc == Done
  }

  ghost predicate Stuck(max: int, s: State) {
    forall i, o :: 0 <= i < |s.threads| ==> Step(max, s, i, o).None?
  }

  /** No deadlock: in a safe state some goroutine can move unless all have ended. */
  lemma NoDeadlock(max: int, s: State)
    requires Safe(s) && !AllDone(s)
    ensures !Stuck(max, s)
  {
    var i :| 0 <= i < |s.threads| && s.threads[i].pc != Done;
    var j := if s.lock.Some? then s.lock.value else i;
    assert Step(max, s, j, Failure).Some?;
  }
}
