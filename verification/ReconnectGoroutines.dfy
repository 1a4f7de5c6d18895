/** What each goroutine of pyth/pythwebsocket.go does when it runs through on its own, spelled out field
    by field, and which goroutines it has started at any moment of any interleaving. */
module ReconnectGoroutines {
  import opened Wrappers
  import opened Reconnect
  import ReconnectBound

  // ---------- one goroutine on its own ----------

  /** What the network answers to a goroutine. */
  datatype Answers = Answers(read: Outcome, dial: Outcome, resubscribe: Outcome)

  function AnswerAt(pc: Pc, answers: Answers): Outcome {
    if pc.Dial? then answers.dial else if pc.Resubscribe? then answers.resubscribe else answers.read
  }

  /** The state after `n` steps of goroutine `i`. */
  function Alone(max: int, s: State, i: nat, answers: Answers, n: nat): Option<State>
    decreases n, answers
  {
    if n == 0 then Some(s)
    else if i >= |s.threads| then None
    else match Step(max, s, i, AnswerAt(s.threads[i].pc, answers))
         case None => None
         case Some(t) => Alone(max, t, i, answers, n - 1)
  }

  function If(b: bool): nat {
    if b then 1 else 0
  }

  /** Where a goroutine is, with the fields, connMutex and the number of dials. */
  datatype Spot = Spot(pc: Pc, c: Client, lock: Option<nat>, dials: nat)

  /** `s` with goroutine `i` at `a`. */
  function At(s: State, i: nat, a: Spot): State
    requires i < |s.threads|
  {
    State(a.c, a.lock, s.cancelled, s.threads[i := Thread(s.threads[i].role, a.pc)], a.dials)
  }

  /** `s` with goroutine `i` gone on to `pc` and goroutines added; connMutex is free. */
  function Left(s: State, i: nat, pc: Pc, c: Client, added: seq<Thread>, dials: nat): State
    requires i < |s.threads|
  {
    State(c, None, s.cancelled, s.threads[i := Thread(s.threads[i].role, pc)] + added, dials)
  }

  function LockAfter(i: nat, lock: Option<nat>, locking: Locking): Option<nat> {
    match locking
    case Keep => lock
    case Take => Some(i)
    case Free => None
  }

  /** One step leads from `a` to `b`, and starts no goroutine. */
  ghost predicate OneStep(max: int, cancelled: bool, role: Role, i: nat, answers: Answers, a: Spot, b: Spot) {
    var e := Local(max, a.c, a.lock.None?, cancelled, Thread(role, a.pc), AnswerAt(a.pc, answers));
    && e.Some? && e.value.started.None? && !a.pc.Cancel?
    && b == Spot(e.value.pc, e.value.c, LockAfter(i, a.lock, e.value.locking), a.dials + If(a.pc.Dial?))
  }

  /** `n` steps of goroutine `i` lead from `a` to `b`. */
  ghost predicate Leads(max: int, s: State, i: nat, answers: Answers, a: Spot, n: nat, b: Spot)
    requires i < |s.threads|
  {
    forall m: nat :: Alone(max, At(s, i, a), i, answers, n + m) == Alone(max, At(s, i, b), i, answers, m)
  }

  lemma AtOneStep(max: int, s: State, i: nat, answers: Answers, a: Spot, b: Spot)
    requires i < |s.threads| && OneStep(max, s.cancelled, s.threads[i].role, i, answers, a, b)
    ensures Step(max, At(s, i, a), i, AnswerAt(a.pc, answers)) == Some(At(s, i, b))
  {
    var r := At(s, i, a);
    assert At(s, i, b).threads == r.threads[i := r.threads[i].(pc := b.pc)] + [];
  }

  lemma GoesFirst(max: int, s: State, i: nat, answers: Answers, a: Spot, b: Spot)
    requires i < |s.threads| && OneStep(max, s.cancelled, s.threads[i].role, i, answers, a, b)
    ensures Leads(max, s, i, answers, a, 1, b)
  {
    AtOneStep(max, s, i, answers, a, b);
    StepLeads(max, s, i, answers, a, b);
  }

  lemma StepLeads(max: int, s: State, i: nat, answers: Answers, a: Spot, b: Spot)
    requires i < |s.threads| && Step(max, At(s, i, a), i, AnswerAt(a.pc, answers)) == Some(At(s, i, b))
    ensures Leads(max, s, i, answers, a, 1, b)
  {
    forall m: nat
      ensures Alone(max, At(s, i, a), i, answers, 1 + m) == Alone(max, At(s, i, b), i, answers, m)
    {
    }
  }

  lemma Joins(max: int, s: State, i: nat, answers: Answers, a: Spot, n: nat, b: Spot, k: nat, c: Spot)
    requires i < |s.threads| && Leads(max, s, i, answers, a, n, b) && Leads(max, s, i, answers, b, k, c)
    ensures Leads(max, s, i, answers, a, n + k, c)
  {
    forall m: nat
      ensures Alone(max, At(s, i, a), i, answers, (n + k) + m) == Alone(max, At(s, i, c), i, answers, m)
    {
      assert Alone(max, At(s, i, a), i, answers, n + (k + m)) == Alone(max, At(s, i, b), i, answers, k + m);
    }
  }

  /** One step more. */
  lemma Goes(max: int, s: State, i: nat, answers: Answers, a: Spot, n: nat, b: Spot, c: Spot)
    requires i < |s.threads| && Leads(max, s, i, answers, a, n, b)
    requires OneStep(max, s.cancelled, s.threads[i].role, i, answers, b, c)
    ensures Leads(max, s, i, answers, a, n + 1, c)
  {
    GoesFirst(max, s, i, answers, b, c);
    Joins(max, s, i, answers, a, n, b, 1, c);
  }

  ghost predicate Ready(s: State, i: nat, pc: Pc) {
    i < |s.threads| && s.threads[i].pc == pc && s.lock.None?
  }

  lemma Begins(s: State, i: nat)
    requires i < |s.threads|
    ensures s == At(s, i, Spot(s.threads[i].pc, s.c, s.lock, s.dials))
  {
    assert s.threads[i := Thread(s.threads[i].role, s.threads[i].pc)] == s.threads;
  }

  /** A run that starts nothing. */
  lemma Arrives(max: int, s: State, i: nat, answers: Answers, a: Spot, n: nat, b: Spot)
    requires i < |s.threads| && a == Spot(s.threads[i].pc, s.c, s.lock, s.dials)
    requires Leads(max, s, i, answers, a, n, b) && b.lock.None?
    ensures Alone(max, s, i, answers, n) == Some(Left(s, i, b.pc, b.c, [], b.dials))
  {
    Begins(s, i);
    assert At(s, i, b).threads == Left(s, i, b.pc, b.c, [], b.dials).threads;
    assert Alone(max, At(s, i, a), i, answers, n + 0) == Alone(max, At(s, i, b), i, answers, 0);
  }

  lemma OneAlone(max: int, s: State, i: nat, answers: Answers)
    requires i < |s.threads|
    ensures Alone(max, s, i, answers, 1) == Step(max, s, i, AnswerAt(s.threads[i].pc, answers))
  {
    var t := Step(max, s, i, AnswerAt(s.threads[i].pc, answers));
    if t.Some? {
      assert Alone(max, t.value, i, answers, 0) == t;
    }
  }

  lemma StartingStep(max: int, s: State, i: nat, answers: Answers, b: Spot, done: Pc, other: Thread)
    requires i < |s.threads| && b.lock.None? && !b.pc.Cancel? && !b.pc.Dial?
    requires Local(max, b.c, true, s.cancelled, Thread(s.threads[i].role, b.pc), AnswerAt(b.pc, answers))
             == Some(Effect(done, b.c, Keep, Some(other)))
    ensures Step(max, At(s, i, b), i, AnswerAt(b.pc, answers)) == Some(Left(s, i, done, b.c, [other], b.dials))
  {
    var r := At(s, i, b);
    assert Left(s, i, done, b.c, [other], b.dials).threads == r.threads[i := r.threads[i].(pc := done)] + [other];
  }

  /** The step that starts another goroutine. */
  lemma Starts(max: int, s: State, i: nat, answers: Answers, a: Spot, n: nat, b: Spot, done: Pc, other: Thread)
    requires i < |s.threads| && a == Spot(s.threads[i].pc, s.c, s.lock, s.dials)
    requires Leads(max, s, i, answers, a, n, b) && b.lock.None? && !b.pc.Cancel? && !b.pc.Dial?
    requires Local(max, b.c, true, s.cancelled, Thread(s.threads[i].role, b.pc), AnswerAt(b.pc, answers))
             == Some(Effect(done, b.c, Keep, Some(other)))
    ensures Alone(max, s, i, answers, n + 1) == Some(Left(s, i, done, b.c, [other], b.dials))
  {
    StartingStep(max, s, i, answers, b, done, other);
    Begins(s, i);
    assert Alone(max, At(s, i, a), i, answers, n + 1) == Alone(max, At(s, i, b), i, answers, 1);
    OneAlone(max, At(s, i, b), i, answers);
  }

  // ---------- Connect ----------

  function Opened(conn: nat): Client {
    Client(Some(conn), true, 0, false)
  }

  /** Lines 86 to 107 with a dial that succeeds: six steps of whoever connects. */
  lemma Dials(max: int, s: State, i: nat, answers: Answers, c: Client, next: Pc)
    requires i < |s.threads| && answers.dial.Success?
    requires next == match s.threads[i].role
                     case Reader | Handler => Zero
                     case Starter => Resubscribe
                     case _ => Done
    ensures Leads(max, s, i, answers, Spot(DialWait, c, None, s.dials), 6,
                  Spot(next, Opened(answers.dial.conn), None, s.dials + 1))
  {
    var conn := answers.dial.conn;
    var a, b := Spot(DialWait, c, None, s.dials), Spot(SetConn(conn), c, Some(i), s.dials + 1);
    GoesFirst(max, s, i, answers, a, Spot(Dial, c, Some(i), s.dials));
    Goes(max, s, i, answers, a, 1, Spot(Dial, c, Some(i), s.dials), b);
    SetsFields(max, s, i, answers, conn, c, s.dials + 1, next);
    Joins(max, s, i, answers, a, 2, b, 4, Spot(next, Opened(conn), None, s.dials + 1));
  }

  lemma SetsFields(max: int, s: State, i: nat, answers: Answers, conn: nat, c: Client, dials: nat, next: Pc)
    requires i < |s.threads|
    requires next == match s.threads[i].role
                     case Reader | Handler => Zero
                     case Starter => Resubscribe
                     case _ => Done
    ensures Leads(max, s, i, answers, Spot(SetConn(conn), c, Some(i), dials), 4, Spot(next, Opened(conn), None, dials))
  {
    var d := c.(conn := Some(conn));
    var a, b := Spot(SetConn(conn), c, Some(i), dials), Spot(SetCount, d.(connected := true), Some(i), dials);
    GoesFirst(max, s, i, answers, a, Spot(SetConnected, d, Some(i), dials));
    Goes(max, s, i, answers, a, 1, Spot(SetConnected, d, Some(i), dials), b);
    ClearsFields(max, s, i, answers, b, Spot(next, Opened(conn), None, dials));
    Joins(max, s, i, answers, a, 2, b, 2, Spot(next, Opened(conn), None, dials));
  }

  lemma ClearsFields(max: int, s: State, i: nat, answers: Answers, a: Spot, b: Spot)
    requires i < |s.threads| && a.pc.SetCount? && b.c == Client(a.c.conn, a.c.connected, 0, false)
    requires b.pc == match s.threads[i].role
                     case Reader | Handler => Zero
                     case Starter => Resubscribe
                     case _ => Done
    requires b.lock.None? && b.dials == a.dials
    ensures Leads(max, s, i, answers, a, 2, b)
  {
    var m := Spot(SetGaveUp, a.c.(reconnectCount := 0), a.lock, a.dials);
    GoesFirst(max, s, i, answers, a, m);
    Goes(max, s, i, answers, a, 1, m, b);
  }

  /** With one that fails: two steps, and the fields stay. */
  lemma DialsInVain(max: int, s: State, i: nat, answers: Answers, c: Client, next: Pc)
    requires i < |s.threads| && answers.dial.Failure?
    requires next == match s.threads[i].role
                     case Reader | Handler => Respawn
                     case _ => Done
    ensures Leads(max, s, i, answers, Spot(DialWait, c, None, s.dials), 2, Spot(next, c, None, s.dials + 1))
  {
    var a, b := Spot(DialWait, c, None, s.dials), Spot(Dial, c, Some(i), s.dials);
    GoesFirst(max, s, i, answers, a, b);
    Goes(max, s, i, answers, a, 1, b, Spot(next, c, None, s.dials + 1));
  }

  /** A call of Connect. */
  lemma ConnectAlone(max: int, s: State, i: nat, answers: Answers)
    requires Ready(s, i, DialWait) && s.threads[i].role.Connector?
    ensures answers.dial.Failure? ==> Alone(max, s, i, answers, 2) == Some(Left(s, i, Done, s.c, [], s.dials + 1))
    ensures answers.dial.Success? ==>
              Alone(max, s, i, answers, 6)
              == Some(Left(s, i, Done, Client(Some(answers.dial.conn), true, 0, false), [], s.dials + 1))
  {
    var a := Spot(DialWait, s.c, None, s.dials);
    if answers.dial.Success? {
      Dials(max, s, i, answers, s.c, Done);
      Arrives(max, s, i, answers, a, 6, Spot(Done, Opened(answers.dial.conn), None, s.dials + 1));
    } else {
      DialsInVain(max, s, i, answers, s.c, Done);
      Arrives(max, s, i, answers, a, 2, Spot(Done, s.c, None, s.dials + 1));
    }
  }

  // ---------- handleReconnect ----------

  /** Where a reader or a handler is when handleReconnect has returned. */
  function Back(role: Role): Pc {
    match role
    case Reader => Top
    case _ => Done
  }

  predicate Reconnects(role: Role) {
    role.Reader? || role.Handler?
  }

  /** Lines 366 to 376: the connection is dropped. */
  lemma Drops(max: int, s: State, i: nat, answers: Answers)
    requires Ready(s, i, Enter)
    ensures Leads(max, s, i, answers, Spot(Enter, s.c, None, s.dials), 3,
                  Spot(Decide, Client(None, false, s.c.reconnectCount, s.c.gaveUp), Some(i), s.dials))
  {
    var c := s.c.(connected := false);
    var a := Spot(Enter, s.c, None, s.dials);
    GoesFirst(max, s, i, answers, a, Spot(Mark, s.c, Some(i), s.dials));
    Goes(max, s, i, answers, a, 1, Spot(Mark, s.c, Some(i), s.dials), Spot(Drop, c, Some(i), s.dials));
    Goes(max, s, i, answers, a, 2, Spot(Drop, c, Some(i), s.dials), Spot(Decide, c.(conn := None), Some(i), s.dials));
  }

  /** At the limit, or when the client has given up before: it gives up, and nothing is dialled. */
  lemma HandleReconnectGivesUp(max: int, s: State, i: nat, answers: Answers)
    requires Ready(s, i, Enter) && Reconnects(s.threads[i].role)
    requires s.c.gaveUp || s.c.reconnectCount >= max
    ensures Alone(max, s, i, answers, 4)
         == Some(Left(s, i, Back(s.threads[i].role), Client(None, false, s.c.reconnectCount, true), [], s.dials))
  {
    var n := s.c.reconnectCount;
    var a := Spot(Enter, s.c, None, s.dials);
    var b := Spot(Back(s.threads[i].role), Client(None, false, n, true), None, s.dials);
    Drops(max, s, i, answers);
    Goes(max, s, i, answers, a, 3, Spot(Decide, Client(None, false, n, s.c.gaveUp), Some(i), s.dials), b);
    Arrives(max, s, i, answers, a, 4, b);
  }

  /** Below the limit: the attempt is counted, and a dial follows. */
  lemma Attempts(max: int, s: State, i: nat, answers: Answers)
    requires Ready(s, i, Enter) && !s.c.gaveUp && s.c.reconnectCount < max
    ensures Leads(max, s, i, answers, Spot(Enter, s.c, None, s.dials), 5,
                  Spot(DialWait, Client(None, false, s.c.reconnectCount + 1, false), None, s.dials))
  {
    var n := s.c.reconnectCount;
    var c := Client(None, false, n, false);
    var a := Spot(Enter, s.c, None, s.dials);
    var b, d := Spot(Decide, c, Some(i), s.dials), Spot(DialWait, c.(reconnectCount := n + 1), None, s.dials);
    Drops(max, s, i, answers);
    Counts(max, s, i, answers, b, d);
    Joins(max, s, i, answers, a, 3, b, 2, d);
  }

  lemma Counts(max: int, s: State, i: nat, answers: Answers, a: Spot, b: Spot)
    requires i < |s.threads| && a.pc.Decide? && !a.c.gaveUp && a.c.reconnectCount < max
    requires b == Spot(DialWait, a.c.(reconnectCount := a.c.reconnectCount + 1), None, a.dials)
    ensures Leads(max, s, i, answers, a, 2, b)
  {
    var m := Spot(Count, a.c, None, a.dials);
    GoesFirst(max, s, i, answers, a, m);
    Goes(max, s, i, answers, a, 1, m, b);
  }

  /** A dial that fails starts one new handler, and leaves the counted attempt. */
  lemma HandleReconnectFails(max: int, s: State, i: nat, answers: Answers)
    requires Ready(s, i, Enter) && Reconnects(s.threads[i].role)
    requires !s.c.gaveUp && s.c.reconnectCount < max && answers.dial.Failure?
    ensures Alone(max, s, i, answers, 8)
         == Some(Left(s, i, Back(s.threads[i].role), Client(None, false, s.c.reconnectCount + 1, false),
                      [Thread(Handler, Enter)], s.dials + 1))
  {
    var c := Client(None, false, s.c.reconnectCount + 1, false);
    var a, b := Spot(Enter, s.c, None, s.dials), Spot(Respawn, c, None, s.dials + 1);
    Attempts(max, s, i, answers);
    DialsInVain(max, s, i, answers, c, Respawn);
    Joins(max, s, i, answers, a, 5, Spot(DialWait, c, None, s.dials), 2, b);
    Starts(max, s, i, answers, a, 7, b, Back(s.threads[i].role), Thread(Handler, Enter));
  }

  /** A dial that succeeds opens the connection, sets the count to 0, and starts one new reader. */
  lemma HandleReconnectSucceeds(max: int, s: State, i: nat, answers: Answers)
    requires Ready(s, i, Enter) && Reconnects(s.threads[i].role)
    requires !s.c.gaveUp && s.c.reconnectCount < max && answers.dial.Success?
    ensures Alone(max, s, i, answers, 13)
         == Some(Left(s, i, Back(s.threads[i].role), Client(Some(answers.dial.conn), true, 0, false),
                      [Thread(Reader, Top)], s.dials + 1))
  {
    var c, d := Client(None, false, s.c.reconnectCount + 1, false), Opened(answers.dial.conn);
    var a, b := Spot(Enter, s.c, None, s.dials), Spot(Zero, d, None, s.dials + 1);
    Attempts(max, s, i, answers);
    Dials(max, s, i, answers, c, Zero);
    Joins(max, s, i, answers, a, 5, Spot(DialWait, c, None, s.dials), 6, b);
    Goes(max, s, i, answers, a, 11, b, Spot(Restart, d, None, s.dials + 1));
    Starts(max, s, i, answers, a, 12, Spot(Restart, d, None, s.dials + 1), Back(s.threads[i].role),
           Thread(Reader, Top));
  }

  // ---------- Start ----------

  /** The end of Start: one new reader, unless the resubscription fails. */
  lemma Resubscribes(max: int, s: State, i: nat, answers: Answers, a: Spot, n: nat, c: Client, dials: nat)
    requires i < |s.threads| && s.threads[i].role.Starter? && a == Spot(s.threads[i].pc, s.c, s.lock, s.dials)
    requires Leads(max, s, i, answers, a, n, Spot(Resubscribe, c, None, dials))
    ensures answers.resubscribe.Failure? ==> Alone(max, s, i, answers, n + 1) == Some(Left(s, i, Done, c, [], dials))
    ensures answers.resubscribe.Success? ==>
              Alone(max, s, i, answers, n + 2) == Some(Left(s, i, Done, c, [Thread(Reader, Top)], dials))
  {
    var b := Spot(if answers.resubscribe.Success? then Restart else Done, c, None, dials);
    Goes(max, s, i, answers, a, n, Spot(Resubscribe, c, None, dials), b);
    if answers.resubscribe.Success? {
      Starts(max, s, i, answers, a, n + 1, b, Done, Thread(Reader, Top));
    } else {
      Arrives(max, s, i, answers, a, n + 1, b);
    }
  }

  /** Start on an open connection keeps it. */
  lemma StartWhenConnected(max: int, s: State, i: nat, answers: Answers)
    requires Ready(s, i, StartLook) && s.threads[i].role.Starter? && s.c.connected && s.c.conn.Some?
    ensures answers.resubscribe.Failure? ==> Alone(max, s, i, answers, 2) == Some(Left(s, i, Done, s.c, [], s.dials))
    ensures answers.resubscribe.Success? ==>
              Alone(max, s, i, answers, 3) == Some(Left(s, i, Done, s.c, [Thread(Reader, Top)], s.dials))
  {
    var a := Spot(StartLook, s.c, None, s.dials);
    GoesFirst(max, s, i, answers, a, Spot(Resubscribe, s.c, None, s.dials));
    Resubscribes(max, s, i, answers, a, 1, s.c, s.dials);
  }

  /** Start without a connection dials first. */
  lemma StartWhenDisconnected(max: int, s: State, i: nat, answers: Answers)
    requires Ready(s, i, StartLook) && s.threads[i].role.Starter? && !(s.c.connected && s.c.conn.Some?)
    ensures answers.dial.Failure? ==> Alone(max, s, i, answers, 3) == Some(Left(s, i, Done, s.c, [], s.dials + 1))
    ensures answers.dial.Success? ==>
              var c := Client(Some(answers.dial.conn), true, 0, false);
              if answers.resubscribe.Failure? then
                Alone(max, s, i, answers, 8) == Some(Left(s, i, Done, c, [], s.dials + 1))
              else
                Alone(max, s, i, answers, 9) == Some(Left(s, i, Done, c, [Thread(Reader, Top)], s.dials + 1))
  {
    var a, b := Spot(StartLook, s.c, None, s.dials), Spot(DialWait, s.c, None, s.dials);
    GoesFirst(max, s, i, answers, a, b);
    if answers.dial.Success? {
      var c := Opened(answers.dial.conn);
      Dials(max, s, i, answers, s.c, Resubscribe);
      Joins(max, s, i, answers, a, 1, b, 6, Spot(Resubscribe, c, None, s.dials + 1));
      Resubscribes(max, s, i, answers, a, 7, c, s.dials + 1);
    } else {
      var d := Spot(Done, s.c, None, s.dials + 1);
      DialsInVain(max, s, i, answers, s.c, Done);
      Joins(max, s, i, answers, a, 1, b, 2, d);
      Arrives(max, s, i, answers, a, 3, d);
    }
  }

  // ---------- readMessages, Disconnect, Reset ----------

  /** The head of the reader's loop: it ends when the client is cancelled or has given up, and goes into
      handleReconnect without a connection. */
  lemma ReaderLooks(max: int, s: State, i: nat, answers: Answers)
    requires Ready(s, i, Top)
    ensures Leads(max, s, i, answers, Spot(Top, s.c, None, s.dials), 1,
                  Spot(if s.cancelled then Done else Look, s.c, None, s.dials))
    ensures !s.cancelled ==>
              Leads(max, s, i, answers, Spot(Top, s.c, None, s.dials), 2,
                    Spot(if s.c.gaveUp then Done else if s.c.conn.None? then Enter else Read, s.c, None, s.dials))
  {
    var a := Spot(Top, s.c, None, s.dials);
    var b := Spot(if s.cancelled then Done else Look, s.c, None, s.dials);
    GoesFirst(max, s, i, answers, a, b);
    if !s.cancelled {
      Goes(max, s, i, answers, a, 1, b,
           Spot(if s.c.gaveUp then Done else if s.c.conn.None? then Enter else Read, s.c, None, s.dials));
    }
  }

  /** A reader that cannot read: it ends, or goes to reconnect. */
  lemma ReaderLeavesLoop(max: int, s: State, i: nat, answers: Answers)
    requires Ready(s, i, Top) && (s.cancelled || s.c.gaveUp || s.c.conn.None?)
    ensures Alone(max, s, i, answers, if s.cancelled then 1 else 2)
         == Some(Left(s, i, if s.cancelled || s.c.gaveUp then Done else Enter, s.c, [], s.dials))
  {
    ReaderLooks(max, s, i, answers);
    Arrives(max, s, i, answers, Spot(Top, s.c, None, s.dials), if s.cancelled then 1 else 2,
            Spot(if s.cancelled || s.c.gaveUp then Done else Enter, s.c, None, s.dials));
  }

  /** A turn of the loop with a read: the next turn, or a reconnection when it fails. */
  lemma ReaderTurn(max: int, s: State, i: nat, answers: Answers)
    requires Ready(s, i, Top) && !s.cancelled && !s.c.gaveUp && s.c.conn.Some?
    ensures Alone(max, s, i, answers, 3)
         == Some(Left(s, i, if answers.read.Success? then Top else Enter, s.c, [], s.dials))
  {
    var a := Spot(Top, s.c, None, s.dials);
    var b := Spot(if answers.read.Success? then Top else Enter, s.c, None, s.dials);
    ReaderLooks(max, s, i, answers);
    Goes(max, s, i, answers, a, 2, Spot(Read, s.c, None, s.dials), b);
    Arrives(max, s, i, answers, a, 3, b);
  }

  /** Line 129: the readers are cancelled. */
  lemma Cancels(max: int, s: State, i: nat, answers: Answers, n: nat)
    requires Ready(s, i, Cancel)
    ensures Alone(max, s, i, answers, n + 1) == Alone(max, AfterCancel(s, i), i, answers, n)
  {
    assert AfterCancel(s, i).threads == s.threads[i := s.threads[i].(pc := CloseWait)] + [];
    assert Step(max, s, i, answers.read) == Some(AfterCancel(s, i));
  }

  function AfterCancel(s: State, i: nat): State
    requires i < |s.threads|
  {
    s.(cancelled := true, threads := s.threads[i := Thread(s.threads[i].role, CloseWait)])
  }

  /** Closing the connection that there is. */
  lemma Closes(max: int, s: State, i: nat, answers: Answers)
    requires Ready(s, i, CloseWait) && s.c.conn.Some?
    ensures Leads(max, s, i, answers, Spot(CloseWait, s.c, None, s.dials), 3,
                  Spot(Done, Client(None, false, s.c.reconnectCount, s.c.gaveUp), None, s.dials))
  {
    var a, b := Spot(CloseWait, s.c, None, s.dials), Spot(CloseConn, s.c, Some(i), s.dials);
    var last := Spot(Done, Client(None, false, s.c.reconnectCount, s.c.gaveUp), None, s.dials);
    GoesFirst(max, s, i, answers, a, b);
    ClearsConnection(max, s, i, answers, b, last);
    Joins(max, s, i, answers, a, 1, b, 2, last);
  }

  lemma ClearsConnection(max: int, s: State, i: nat, answers: Answers, a: Spot, b: Spot)
    requires i < |s.threads| && a.pc.CloseConn? && a.c.conn.Some?
    requires b == Spot(Done, Client(None, false, a.c.reconnectCount, a.c.gaveUp), None, a.dials)
    ensures Leads(max, s, i, answers, a, 2, b)
  {
    var m := Spot(CloseFlag, a.c.(conn := None), a.lock, a.dials);
    GoesFirst(max, s, i, answers, a, m);
    Goes(max, s, i, answers, a, 1, m, b);
  }

  lemma ClosesNothing(max: int, s: State, i: nat, answers: Answers)
    requires Ready(s, i, CloseWait) && s.c.conn.None?
    ensures Leads(max, s, i, answers, Spot(CloseWait, s.c, None, s.dials), 2, Spot(Done, s.c, None, s.dials))
  {
    var a, b := Spot(CloseWait, s.c, None, s.dials), Spot(CloseConn, s.c, Some(i), s.dials);
    GoesFirst(max, s, i, answers, a, b);
    Goes(max, s, i, answers, a, 1, b, Spot(Done, s.c, None, s.dials));
  }

  /** Disconnect cancels the readers and leaves no connection. */
  lemma DisconnectAlone(max: int, s: State, i: nat, answers: Answers)
    requires Ready(s, i, Cancel)
    ensures s.c.conn.Some? ==>
              Alone(max, s, i, answers, 4)
              == Some(Left(s.(cancelled := true), i, Done, Client(None, false, s.c.reconnectCount, s.c.gaveUp), [],
                           s.dials))
    ensures s.c.conn.None? ==>
              Alone(max, s, i, answers, 3) == Some(Left(s.(cancelled := true), i, Done, s.c, [], s.dials))
  {
    var t, role := AfterCancel(s, i), s.threads[i].role;
    assert t.threads[i := Thread(role, Done)] == s.threads[i := Thread(role, Done)];
    var a := Spot(CloseWait, s.c, None, s.dials);
    if s.c.conn.Some? {
      Closes(max, t, i, answers);
      Arrives(max, t, i, answers, a, 3,
              Spot(Done, Client(None, false, s.c.reconnectCount, s.c.gaveUp), None, s.dials));
      Cancels(max, s, i, answers, 3);
    } else {
      ClosesNothing(max, t, i, answers);
      Arrives(max, t, i, answers, a, 2, Spot(Done, s.c, None, s.dials));
      Cancels(max, s, i, answers, 2);
    }
  }

  lemma Resets(max: int, s: State, i: nat, answers: Answers)
    requires Ready(s, i, ResetWait)
    ensures Leads(max, s, i, answers, Spot(ResetWait, s.c, None, s.dials), 3,
                  Spot(Done, Client(s.c.conn, s.c.connected, 0, false), None, s.dials))
  {
    var a, b := Spot(ResetWait, s.c, None, s.dials), Spot(ResetGaveUp, s.c, Some(i), s.dials);
    var last := Spot(Done, Client(s.c.conn, s.c.connected, 0, false), None, s.dials);
    GoesFirst(max, s, i, answers, a, b);
    ClearsCount(max, s, i, answers, b, last);
    Joins(max, s, i, answers, a, 1, b, 2, last);
  }

  lemma ClearsCount(max: int, s: State, i: nat, answers: Answers, a: Spot, b: Spot)
    requires i < |s.threads| && a.pc.ResetGaveUp?
    requires b == Spot(Done, Client(a.c.conn, a.c.connected, 0, false), None, a.dials)
    ensures Leads(max, s, i, answers, a, 2, b)
  {
    var m := Spot(ResetCount, a.c.(gaveUp := false), a.lock, a.dials);
    GoesFirst(max, s, i, answers, a, m);
    Goes(max, s, i, answers, a, 1, m, b);
  }

  /** Reset clears the gave-up flag and the count. */
  lemma ResetAlone(max: int, s: State, i: nat, answers: Answers)
    requires Ready(s, i, ResetWait)
    ensures Alone(max, s, i, answers, 3)
         == Some(Left(s, i, Done, Client(s.c.conn, s.c.connected, 0, false), [], s.dials))
  {
    Resets(max, s, i, answers);
    Arrives(max, s, i, answers, Spot(ResetWait, s.c, None, s.dials), 3,
            Spot(Done, Client(s.c.conn, s.c.connected, 0, false), None, s.dials));
  }

  /** An outside call is one goroutine more, ready to run its method; the program has no outside calls of
      readMessages and handleReconnect. */
  lemma CallsBegin(max: int, s: State, role: Role, t: State)
    requires Next(max, s, Call(role)) == Some(t)
    ensures t == s.(threads := s.threads + [t.threads[|s.threads|]])
    ensures |t.threads| == |s.threads| + 1 && t.threads[|s.threads|].role == role && !Reconnects(role)
    ensures s.lock.None? ==>
              && (role.Connector? ==> Ready(t, |s.threads|, DialWait))
              && (role.Starter? ==> Ready(t, |s.threads|, StartLook))
              && (role.Disconnector? ==> Ready(t, |s.threads|, Cancel))
              && (role.Resetter? ==> Ready(t, |s.threads|, ResetWait))
  {
  }

  // ---------- which goroutines a goroutine has started, in every interleaving ----------

  /** What goroutine `i` has done in a schedule: readers, handlers and goroutines started; its dials that
      succeeded and failed, and its resubscriptions in Start that succeeded and failed. */
  datatype Tally = Tally(readers: nat, handlers: nat, started: nat,
                         dialled: nat, refused: nat, resubscribed: nat, unsubscribed: nat)

  function Plus(a: Tally, b: Tally): Tally {
    Tally(a.readers + b.readers, a.handlers + b.handlers, a.started + b.started, a.dialled + b.dialled,
          a.refused + b.refused, a.resubscribed + b.resubscribed, a.unsubscribed + b.unsubscribed)
  }

  const NOTHING := Tally(0, 0, 0, 0, 0, 0, 0)

  /** One step of a goroutine that was at `pc`, and the goroutines that were not there before it. */
  ghost function TallyOfMove(pc: Pc, success: bool, added: seq<Thread>): Tally {
    Tally(multiset(added)[Thread(Reader, Top)], multiset(added)[Thread(Handler, Enter)], |added|,
          If(pc.Dial? && success), If(pc.Dial? && !success),
          If(pc.Resubscribe? && success), If(pc.Resubscribe? && !success))
  }

  /** Read off the states before and after one step. */
  ghost function TallyOfStep(s: State, a: Action, t: State, i: nat): Tally
    requires |s.threads| <= |t.threads|
  {
    if a.Go? && a.tid == i && i < |s.threads|
    then TallyOfMove(s.threads[i].pc, a.outcome.Success?, t.threads[|s.threads|..])
    else NOTHING
  }

  lemma NoneIsLost(max: int, s: State, a: Action)
    requires Next(max, s, a).Some?
    ensures |s.threads| <= |Next(max, s, a).value.threads|
  {
  }

  ghost function TallyOf(max: int, s: State, acts: seq<Action>, i: nat): Tally
    requires Exec(max, s, acts).Some?
    decreases |acts|
  {
    if acts == [] then NOTHING else
    var t := Next(max, s, acts[0]).value;
    NoneIsLost(max, s, acts[0]);
    Plus(TallyOfStep(s, acts[0], t, i), TallyOf(max, t, acts[1..], i))
  }

  /** Has dialled or resubscribed with success and not yet started its reader. */
  predicate OwesReader(role: Role, pc: Pc) {
    match pc
    case Zero | Restart => true
    case SetConn(_) | SetConnected | SetCount | SetGaveUp => Reconnects(role)
    case _ => false
  }

  /** Past the last dial or resubscription that Start makes. */
  predicate StartIsOver(pc: Pc) {
    pc.Restart? || pc.Done?
  }

  predicate InStart(pc: Pc) {
    match pc
    case StartLook | DialWait | Dial | SetConn(_) | SetConnected | SetCount | SetGaveUp => true
    case Resubscribe | Restart | Done => true
    case _ => false
  }

  /** Where readers and handlers can be. */
  predicate InReconnect(pc: Pc) {
    match pc
    case StartLook | Resubscribe | Cancel | CloseWait | CloseConn | CloseFlag => false
    case ResetWait | ResetGaveUp | ResetCount => false
    case _ => true
  }

  // What a goroutine in `role` that was at `p` and is now at `q` has started in between, given what it achieved.

  predicate ReadersBalance(role: Role, p: Pc, q: Pc, tally: Tally) {
    tally.readers + If(OwesReader(role, q))
    == If(OwesReader(role, p)) + (if Reconnects(role) then tally.dialled else 0) + tally.resubscribed
  }

  predicate HandlersBalance(role: Role, p: Pc, q: Pc, tally: Tally) {
    tally.handlers + If(q.Respawn?) == If(p.Respawn?) + (if Reconnects(role) then tally.refused else 0)
  }

  predicate StartBalance(role: Role, p: Pc, q: Pc, tally: Tally) {
    role.Starter? && InStart(p) ==>
      && InStart(q)
      && If(StartIsOver(q)) == If(StartIsOver(p)) + tally.resubscribed + tally.unsubscribed + tally.refused
  }

  predicate ReconnectBalance(role: Role, p: Pc, q: Pc, tally: Tally) {
    Reconnects(role) && InReconnect(p) ==> InReconnect(q) && tally.resubscribed == 0
  }

  predicate Balanced(t: Thread, u: Thread, tally: Tally) {
    && u.role == t.role && tally.started == tally.readers + tally.handlers
    && ReadersBalance(t.role, t.pc, u.pc, tally)
    && HandlersBalance(t.role, t.pc, u.pc, tally)
    && StartBalance(t.role, t.pc, u.pc, tally)
    && ReconnectBalance(t.role, t.pc, u.pc, tally)
  }

  function StartedIn(e: Effect): seq<Thread> {
    if e.started.Some? then [e.started.value] else []
  }

  lemma CountStarted(e: Effect, t: Thread)
    ensures multiset(StartedIn(e))[t] == If(e.started == Some(t)) && |StartedIn(e)| == If(e.started.Some?)
  {
  }

  /** A move by what it starts. */
  function TallyOfEffect(pc: Pc, success: bool, e: Effect): Tally {
    Tally(If(e.started == Some(Thread(Reader, Top))), If(e.started == Some(Thread(Handler, Enter))),
          If(e.started.Some?),
          If(pc.Dial? && success), If(pc.Dial? && !success),
          If(pc.Resubscribe? && success), If(pc.Resubscribe? && !success))
  }

  lemma MoveIsItsEffect(pc: Pc, success: bool, e: Effect)
    ensures TallyOfMove(pc, success, StartedIn(e)) == TallyOfEffect(pc, success, e)
  {
    CountStarted(e, Thread(Reader, Top));
    CountStarted(e, Thread(Handler, Enter));
  }

  lemma LocalStarts(max: int, c: Client, free: bool, cancelled: bool, t: Thread, outcome: Outcome, e: Effect)
    requires Local(max, c, free, cancelled, t, outcome) == Some(e)
    ensures e.started.Some? <==> t.pc.Restart? || t.pc.Respawn?
    ensures e.started.Some? ==> e.started.value == if t.pc.Restart? then Thread(Reader, Top) else Thread(Handler, Enter)
  {
  }

  lemma LocalReaders(max: int, c: Client, free: bool, cancelled: bool, t: Thread, outcome: Outcome, e: Effect)
    requires Local(max, c, free, cancelled, t, outcome) == Some(e)
    ensures ReadersBalance(t.role, t.pc, e.pc, TallyOfEffect(t.pc, outcome.Success?, e))
  {
    LocalStarts(max, c, free, cancelled, t, outcome, e);
  }

  lemma LocalHandlers(max: int, c: Client, free: bool, cancelled: bool, t: Thread, outcome: Outcome, e: Effect)
    requires Local(max, c, free, cancelled, t, outcome) == Some(e)
    ensures HandlersBalance(t.role, t.pc, e.pc, TallyOfEffect(t.pc, outcome.Success?, e))
  {
    LocalStarts(max, c, free, cancelled, t, outcome, e);
  }

  lemma LocalStart(max: int, c: Client, free: bool, cancelled: bool, t: Thread, outcome: Outcome, e: Effect)
    requires Local(max, c, free, cancelled, t, outcome) == Some(e)
    ensures StartBalance(t.role, t.pc, e.pc, TallyOfEffect(t.pc, outcome.Success?, e))
  {
  }

  lemma LocalReconnect(max: int, c: Client, free: bool, cancelled: bool, t: Thread, outcome: Outcome, e: Effect)
    requires Local(max, c, free, cancelled, t, outcome) == Some(e)
    ensures ReconnectBalance(t.role, t.pc, e.pc, TallyOfEffect(t.pc, outcome.Success?, e))
  {
  }

  lemma EffectIsBalanced(t: Thread, pc: Pc, tally: Tally)
    requires tally.started == tally.readers + tally.handlers
    requires ReadersBalance(t.role, t.pc, pc, tally) && HandlersBalance(t.role, t.pc, pc, tally)
    requires StartBalance(t.role, t.pc, pc, tally) && ReconnectBalance(t.role, t.pc, pc, tally)
    ensures Balanced(t, Thread(t.role, pc), tally)
  {
  }

  lemma LocalBalance(max: int, c: Client, free: bool, cancelled: bool, t: Thread, outcome: Outcome, e: Effect)
    requires Local(max, c, free, cancelled, t, outcome) == Some(e)
    ensures Balanced(t, Thread(t.role, e.pc), TallyOfEffect(t.pc, outcome.Success?, e))
  {
    LocalReaders(max, c, free, cancelled, t, outcome, e);
    LocalHandlers(max, c, free, cancelled, t, outcome, e);
    LocalStart(max, c, free, cancelled, t, outcome, e);
    LocalReconnect(max, c, free, cancelled, t, outcome, e);
    LocalStarts(max, c, free, cancelled, t, outcome, e);
    EffectIsBalanced(t, e.pc, TallyOfEffect(t.pc, outcome.Success?, e));
  }

  lemma NothingBalances(t: Thread)
    ensures Balanced(t, t, NOTHING)
  {
  }

  lemma AfterOwnStep(s: State, i: nat, e: Effect)
    requires i < |s.threads|
    ensures After(s, i, e).threads[i] == Thread(s.threads[i].role, e.pc)
    ensures |After(s, i, e).threads| >= |s.threads| && After(s, i, e).threads[|s.threads|..] == StartedIn(e)
  {
  }

  lemma AfterOthersStep(max: int, s: State, a: Action, i: nat)
    requires Next(max, s, a).Some? && i < |s.threads| && !(a.Go? && a.tid == i)
    ensures |s.threads| <= |Next(max, s, a).value.threads| && Next(max, s, a).value.threads[i] == s.threads[i]
  {
  }

  lemma StepBalance(max: int, s: State, a: Action, i: nat)
    requires Next(max, s, a).Some? && i < |s.threads|
    ensures var t := Next(max, s, a).value;
            |s.threads| <= |t.threads| && Balanced(s.threads[i], t.threads[i], TallyOfStep(s, a, t, i))
  {
    if a.Go? && a.tid == i {
      var e := Local(max, s.c, s.lock.None?, s.cancelled, s.threads[i], a.outcome).value;
      AfterOwnStep(s, i, e);
      MoveIsItsEffect(s.threads[i].pc, a.outcome.Success?, e);
      LocalBalance(max, s.c, s.lock.None?, s.cancelled, s.threads[i], a.outcome, e);
    } else {
      AfterOthersStep(max, s, a, i);
      NothingBalances(s.threads[i]);
    }
  }

  lemma BalancesAdd(t: Thread, u: Thread, v: Thread, a: Tally, b: Tally)
    requires Balanced(t, u, a) && Balanced(u, v, b)
    ensures Balanced(t, v, Plus(a, b))
  {
  }

  /** In every interleaving, with whatever the others do: a goroutine has started exactly one reader for
      each of its reconnections and each of its resubscriptions in Start that succeeded, and exactly one
      handler for each of its reconnections that failed, save the one it may just be about to start; it
      starts nothing else. */
  lemma {:induction false} EveryStartIsOwed(max: int, s: State, acts: seq<Action>, i: nat)
    requires Exec(max, s, acts).Some? && i < |s.threads|
    ensures var t := Exec(max, s, acts).value;
            |s.threads| <= |t.threads| && Balanced(s.threads[i], t.threads[i], TallyOf(max, s, acts, i))
    decreases |acts|
  {
    if acts == [] {
      NothingBalances(s.threads[i]);
    } else {
      var t := Next(max, s, acts[0]).value;
      StepBalance(max, s, acts[0], i);
      EveryStartIsOwed(max, t, acts[1..], i);
      BalancesAdd(s.threads[i], t.threads[i], Exec(max, t, acts[1..]).value.threads[i],
                  TallyOfStep(s, acts[0], t, i), TallyOf(max, t, acts[1..], i));
    }
  }

  /** A call of Start that has returned has started exactly one reader and nothing else, unless a dial or
      a resubscription of its own failed; then it has started nothing. */
  lemma StartStartsOneReader(max: int, s: State, acts: seq<Action>, i: nat)
    requires Exec(max, s, acts).Some? && i < |s.threads| && s.threads[i] == Thread(Starter, StartLook)
    requires i < |Exec(max, s, acts).value.threads| && Exec(max, s, acts).value.threads[i].pc.Done?
    ensures var tally := TallyOf(max, s, acts, i);
            && tally.started == tally.readers
            && tally.readers == If(tally.refused == 0 && tally.unsubscribed == 0)
  {
    EveryStartIsOwed(max, s, acts, i);
  }

  /** A handler that has ended has started exactly one reader if its dial succeeded, one handler if it
      failed, and nothing if it did not dial; a reader back at the head of its loop, or ended, has started
      one for each dial. */
  lemma ReconnectStartsOne(max: int, s: State, acts: seq<Action>, t: State, i: nat)
    requires Exec(max, s, acts) == Some(t) && i < |s.threads| && Reconnects(s.threads[i].role)
    requires s.threads[i].pc.Enter? || s.threads[i].pc.Top?
    requires i < |t.threads| && (t.threads[i].pc.Done? || t.threads[i].pc.Top?)
    ensures var tally := TallyOf(max, s, acts, i);
            && tally.readers == tally.dialled && tally.handlers == tally.refused
            && tally.started == tally.readers + tally.handlers
  {
    EveryStartIsOwed(max, s, acts, i);
    NothingOwed(s.threads[i], t.threads[i], TallyOf(max, s, acts, i));
  }

  lemma NothingOwed(t: Thread, u: Thread, tally: Tally)
    requires Balanced(t, u, tally) && Reconnects(t.role) && (t.pc.Enter? || t.pc.Top?) && (u.pc.Done? || u.pc.Top?)
    ensures tally.readers == tally.dialled && tally.handlers == tally.refused
    ensures tally.started == tally.readers + tally.handlers
  {
  }

  // ---------- from a fresh client to a running one ----------

  /** The object that NewWebSocketClient makes; nobody has called anything. */
  const FRESH := State(Client(None, false, 0, false), None, false, [], 0)

  predicate OnlyBy(acts: seq<Action>, i: nat) {
    forall a <- acts :: a.Go? && a.tid == i
  }

  lemma {:induction false} AloneIsASchedule(max: int, s: State, i: nat, answers: Answers, n: nat)
    requires Alone(max, s, i, answers, n).Some?
    ensures exists acts :: OnlyBy(acts, i) && Exec(max, s, acts) == Alone(max, s, i, answers, n)
    decreases n
  {
    if n == 0 {
      assert Exec(max, s, []) == Some(s);
    } else {
      var outcome := AnswerAt(s.threads[i].pc, answers);
      var t := Step(max, s, i, outcome).value;
      AloneIsASchedule(max, t, i, answers, n - 1);
      var acts :| OnlyBy(acts, i) && Exec(max, t, acts) == Alone(max, t, i, answers, n - 1);
      var more := [Go(i, outcome)] + acts;
      assert more[1..] == acts && Exec(max, s, more) == Exec(max, t, acts);
    }
  }

  /** What a call of Start on a fresh client that succeeds leaves: the fields and the goroutines of the
      state from which the failing schedules set out, and the call itself, which has returned. */
  function AfterStart(conn: nat): State {
    var s := ReconnectBound.Started(conn);
    s.(threads := [Thread(Starter, Done)] + s.threads, dials := 1)
  }

  lemma StartRunsThrough(max: int, s: State, conn: nat, answers: Answers)
    requires s.threads == [Thread(Starter, StartLook)] && s.c == Client(None, false, 0, false)
    requires s.lock.None? && !s.cancelled && s.dials == 0
    requires answers.dial == Success(conn) && answers.resubscribe.Success?
    ensures Alone(max, s, 0, answers, 9) == Some(AfterStart(conn))
  {
    StartWhenDisconnected(max, s, 0, answers);
    assert s.threads[0 := Thread(Starter, Done)] + [Thread(Reader, Top)] == AfterStart(conn).threads;
  }

  /** Some run of Start on a fresh client gets there. */
  lemma StartReachesStarted(max: int, init: State, conn: nat)
    requires init == FRESH
    ensures exists acts :: Exec(max, init, [Call(Starter)] + acts) == Some(AfterStart(conn)) && OnlyBy(acts, 0)
  {
    var s := init.(threads := init.threads + [Thread(Starter, StartLook)]);
    var answers := Answers(Failure, Success(conn), Success(0));
    StartRunsThrough(max, s, conn, answers);
    AloneIsASchedule(max, s, 0, answers, 9);
    var acts :| OnlyBy(acts, 0) && Exec(max, s, acts) == Alone(max, s, 0, answers, 9);
    CallFirst(max, init, s, acts);
  }

  lemma CallFirst(max: int, s: State, t: State, acts: seq<Action>)
    requires Next(max, s, Call(Starter)) == Some(t)
    ensures Exec(max, s, [Call(Starter)] + acts) == Exec(max, t, acts)
  {
    assert ([Call(Starter)] + acts)[1..] == acts;
  }
}
