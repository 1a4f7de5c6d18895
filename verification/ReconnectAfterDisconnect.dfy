/** When a client that has been disconnected may connect again without anybody asking for it: a handler
    that sleeps past the limit check, or a goroutine that has still to make that check, dials on. */
module ReconnectAfterDisconnect {
  import opened Wrappers
  import opened Reconnect

  /** Goroutines of readers, handlers and Disconnect; no Connect, Start or Reset is in progress. */
  predicate IsOwn(t: Thread) {
    match t.pc
    case StartLook | Resubscribe | ResetWait | ResetGaveUp | ResetCount => false
    case _ => t.role.Reader? || t.role.Handler? || t.role.Disconnector? || t.pc.Done?
  }

  /** A state in which Disconnect has just given up the lock. */
  ghost predicate Disconnected(s: State) {
    Safe(s) && s.lock.None? && s.cancelled && s.c.conn.None? && forall t <- s.threads :: IsOwn(t)
  }

  /** From now on nobody calls Connect, Start or Reset. */
  predicate NobodyConnects(acts: seq<Action>) {
    forall a <- acts :: a.Call? ==> a.role.Disconnector?
  }

  /** Past the limit check, but has not dialled. */
  predicate IsPast(pc: Pc) {
    pc.Count? || pc.DialWait? || pc.Dial?
  }

  /** On the way to the limit check. */
  predicate IsBefore(pc: Pc) {
    match pc
    case Look | Read | Enter | Mark | Drop | Decide | Respawn => true
    case _ => false
  }

  ghost predicate AnyPast(ts: seq<Thread>) {
    exists i :: 0 <= i < |ts| && IsPast(ts[i].pc)
  }

  ghost predicate AnyBefore(ts: seq<Thread>) {
    exists i :: 0 <= i < |ts| && IsBefore(ts[i].pc)
  }

  ghost predicate AnyZero(ts: seq<Thread>) {
    exists i :: 0 <= i < |ts| && ts[i].pc.Zero?
  }

  /** Some goroutine is past the limit check, or one is before it and will pass: the client has not given
      up, and the count is below the limit or is about to be set back to 0 by a goroutine that connected
      before. */
  ghost predicate MayReconnect(max: int, s: State) {
    AnyPast(s.threads)
    || (!s.c.gaveUp && AnyBefore(s.threads)
        && (s.c.reconnectCount < max || (0 < max && AnyZero(s.threads))))
  }

  /** Some later state has a connection. */
  ghost predicate Connects(max: int, s: State) {
    exists acts :: NobodyConnects(acts) && Exec(max, s, acts).Some? && Exec(max, s, acts).value.c.conn.Some?
  }

  // ---------- the dial that is still to come ----------

  lemma OneStep(max: int, s: State, i: nat, outcome: Outcome, t: State)
    requires i < |s.threads| && Step(max, s, i, outcome) == Some(t) && Connects(max, t)
    ensures Connects(max, s)
  {
    var acts :| NobodyConnects(acts) && Exec(max, t, acts).Some? && Exec(max, t, acts).value.c.conn.Some?;
    var more := [Go(i, outcome)] + acts;
    assert more[1..] == acts && Exec(max, s, more) == Exec(max, t, acts);
  }

  lemma Connected(max: int, s: State)
    requires s.c.conn.Some?
    ensures Connects(max, s)
  {
    assert NobodyConnects([]) && Exec(max, s, []) == Some(s);
  }

  lemma FromDialWait(max: int, s: State, i: nat)
    requires i < |s.threads| && s.threads[i].pc.DialWait? && s.lock.None?
    ensures Connects(max, s)
  {
    var t := Step(max, s, i, Failure).value;
    var u := Step(max, t, i, Success(0)).value;
    var v := Step(max, u, i, Failure).value;
    Connected(max, v);
    OneStep(max, u, i, Failure, v);
    OneStep(max, t, i, Success(0), u);
    OneStep(max, s, i, Failure, t);
  }

  lemma FromPast(max: int, s: State, i: nat)
    requires i < |s.threads| && (s.threads[i].pc.Count? || s.threads[i].pc.DialWait?) && s.lock.None?
    ensures Connects(max, s)
  {
    if s.threads[i].pc.Count? {
      var t := Step(max, s, i, Failure).value;
      FromDialWait(max, t, i);
      OneStep(max, s, i, Failure, t);
    } else {
      FromDialWait(max, s, i);
    }
  }

  lemma FromEnter(max: int, s: State, i: nat)
    requires i < |s.threads| && s.threads[i].pc.Enter? && s.lock.None?
    requires !s.c.gaveUp && s.c.reconnectCount < max
    ensures Connects(max, s)
  {
    var t := Step(max, s, i, Failure).value;
    var u := Step(max, t, i, Failure).value;
    var v := Step(max, u, i, Failure).value;
    var w := Step(max, v, i, Failure).value;
    FromPast(max, w, i);
    OneStep(max, v, i, Failure, w);
    OneStep(max, u, i, Failure, v);
    OneStep(max, t, i, Failure, u);
    OneStep(max, s, i, Failure, t);
  }

  lemma FromBefore(max: int, s: State, i: nat)
    requires i < |s.threads| && IsBefore(s.threads[i].pc) && !Holding(s.threads[i].pc) && s.lock.None?
    requires s.c.conn.None? && !s.c.gaveUp && s.c.reconnectCount < max
    ensures Connects(max, s)
  {
    if s.threads[i].pc.Enter? {
      FromEnter(max, s, i);
    } else {
      var t := Step(max, s, i, Failure).value;
      FromEnter(max, t, if s.threads[i].pc.Respawn? then |s.threads| else i);
      OneStep(max, s, i, Failure, t);
    }
  }

  lemma ItMay(max: int, s: State)
    requires Disconnected(s) && MayReconnect(max, s)
    ensures Connects(max, s)
  {
    if i :| 0 <= i < |s.threads| && IsPast(s.threads[i].pc) {
      FromPast(max, s, i);
    } else {
      var i :| 0 <= i < |s.threads| && IsBefore(s.threads[i].pc);
      if s.c.reconnectCount < max {
        FromBefore(max, s, i);
      } else {
        var j :| 0 <= j < |s.threads| && s.threads[j].pc.Zero?;
        var t := Step(max, s, j, Failure).value;
        FromBefore(max, t, i);
        OneStep(max, s, j, Failure, t);
      }
    }
  }

  // ---------- otherwise it stays disconnected ----------

  /** Goroutines that do not dial without passing the limit check. */
  predicate IsHarmless(pc: Pc) {
    match pc
    case Top | Look | Read | Enter | Mark | Drop | Decide | Respawn | Zero | Restart | Done => true
    case Cancel | CloseWait | CloseConn | CloseFlag => true
    case _ => false
  }

  /** Nobody will pass the limit check. */
  ghost predicate Blocked(max: int, s: State) {
    && s.cancelled && s.c.conn.None? && (forall i :: 0 <= i < |s.threads| ==> IsHarmless(s.threads[i].pc))
    && (s.c.gaveUp || !AnyBefore(s.threads) || (s.c.reconnectCount >= max && (max <= 0 || !AnyZero(s.threads))))
  }

  lemma DisconnectedIsBlocked(max: int, s: State)
    requires Disconnected(s) && !MayReconnect(max, s)
    ensures Blocked(max, s)
  {
    forall i | 0 <= i < |s.threads| ensures IsHarmless(s.threads[i].pc) {
      assert s.threads[i] in s.threads && !IsPast(s.threads[i].pc) && !Holding(s.threads[i].pc);
    }
  }

  /** One step of a harmless goroutine of a blocked client. */
  lemma LocalKeepsBlocked(max: int, c: Client, free: bool, t: Thread, outcome: Outcome)
    requires c.conn.None? && IsHarmless(t.pc) && Local(max, c, free, true, t, outcome).Some?
    requires IsBefore(t.pc) ==> c.gaveUp || c.reconnectCount >= max
    ensures var e := Local(max, c, free, true, t, outcome).value;
            && e.c.conn.None? && IsHarmless(e.pc) && (e.started.Some? ==> IsHarmless(e.started.value.pc))
            && (c.gaveUp ==> e.c.gaveUp)
            && e.c.reconnectCount == (if t.pc.Zero? then 0 else c.reconnectCount)
            && !e.pc.Zero? && (e.started.Some? ==> !e.started.value.pc.Zero?)
            && (IsBefore(e.pc) || (e.started.Some? && IsBefore(e.started.value.pc)) ==> IsBefore(t.pc))
  {
  }

  lemma StepKeepsBlocked(max: int, s: State, i: nat, outcome: Outcome)
    requires Blocked(max, s) && i < |s.threads| && Step(max, s, i, outcome).Some?
    ensures Blocked(max, Step(max, s, i, outcome).value)
  {
    LocalKeepsBlocked(max, s.c, s.lock.None?, s.threads[i], outcome);
    var e := Local(max, s.c, s.lock.None?, s.cancelled, s.threads[i], outcome).value;
    NothingNew(s, i, e);
  }

  lemma NothingNew(s: State, i: nat, e: Effect)
    requires i < |s.threads| && !e.pc.Zero? && (e.started.Some? ==> !e.started.value.pc.Zero?)
    requires IsBefore(e.pc) || (e.started.Some? && IsBefore(e.started.value.pc)) ==> IsBefore(s.threads[i].pc)
    ensures AnyBefore(After(s, i, e).threads) ==> AnyBefore(s.threads)
    ensures AnyZero(After(s, i, e).threads) ==> AnyZero(s.threads)
  {
    var ts := After(s, i, e).threads;
    if j :| 0 <= j < |ts| && IsBefore(ts[j].pc) {
      assert IsBefore(s.threads[if j == |s.threads| then i else j].pc);
    }
    if j :| 0 <= j < |ts| && ts[j].pc.Zero? {
      assert s.threads[j].pc.Zero?;
    }
  }

  lemma CallKeepsBlocked(max: int, s: State)
    requires Blocked(max, s)
    ensures Blocked(max, s.(threads := s.threads + [Thread(Disconnector, Cancel)]))
  {
    var ts := s.threads + [Thread(Disconnector, Cancel)];
    assert AnyBefore(ts) ==> AnyBefore(s.threads);
    assert AnyZero(ts) ==> AnyZero(s.threads);
  }

  lemma {:induction false} StaysDisconnected(max: int, s: State, acts: seq<Action>)
    requires Blocked(max, s) && NobodyConnects(acts) && Exec(max, s, acts).Some?
    ensures Exec(max, s, acts).value.c.conn.None?
    decreases |acts|
  {
    if acts != [] {
      assert acts[0] in acts && forall a <- acts[1..] :: a in acts;
      match acts[0] {
        case Go(i, outcome) => StepKeepsBlocked(max, s, i, outcome);
        case Call(_) => CallKeepsBlocked(max, s);
      }
      StaysDisconnected(max, Next(max, s, acts[0]).value, acts[1..]);
    }
  }

  // ---------- main result ----------

  /** After Disconnect, and with no Connect, Start or Reset in progress or to come: some later state has a
      connection if and only if a goroutine is past the limit check, or before it and able to pass. */
  lemma ReconnectsIff(max: int, s: State)
    requires Disconnected(s)
    ensures Connects(max, s) <==> MayReconnect(max, s)
  {
    if MayReconnect(max, s) {
      ItMay(max, s);
    } else {
      DisconnectedIsBlocked(max, s);
      forall acts | NobodyConnects(acts) && Exec(max, s, acts).Some? ensures Exec(max, s, acts).value.c.conn.None? {
        StaysDisconnected(max, s, acts);
      }
    }
  }
}
