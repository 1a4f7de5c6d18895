/** The dial bound is exact: for every maxReconnects there is a failing schedule that reaches it.
    The reader makes maxReconnects passes; the handler each of them starts passes the limit check
    and stops just before it counts its attempt. */
module ReconnectWorstCase {
  import opened Wrappers
  import opened Reconnect
  import opened ReconnectBound

  predicate Leads(max: int, s: State, acts: seq<Action>, t: State) {
    FailingRun(max, s, acts) && Exec(max, s, acts) == Some(t)
  }

  ghost predicate Reaches(max: int, s: State, t: State) {
    exists acts :: Leads(max, s, acts, t)
  }

  lemma FirstStep(max: int, s: State, a: Action, t: State, u: State)
    requires Failing(s, a) && Next(max, s, a) == Some(t) && Reaches(max, t, u)
    ensures Reaches(max, s, u)
  {
    var acts :| Leads(max, t, acts, u);
    var more := [a] + acts;
    assert more[0] == a && more[1..] == acts;
    assert Leads(max, s, more, u);
  }

  lemma {:induction false} ThenAlong(max: int, s: State, acts: seq<Action>, t: State, u: State)
    requires FailingRun(max, s, acts) && Exec(max, s, acts) == Some(t) && Reaches(max, t, u)
    ensures Reaches(max, s, u)
    decreases |acts|
  {
    if acts != [] {
      var r := Next(max, s, acts[0]).value;
      ThenAlong(max, r, acts[1..], t, u);
      FirstStep(max, s, acts[0], r, u);
    }
  }

  lemma Then(max: int, s: State, t: State, u: State)
    requires Reaches(max, s, t) && Reaches(max, t, u)
    ensures Reaches(max, s, u)
  {
    var acts :| Leads(max, s, acts, t);
    ThenAlong(max, s, acts, t, u);
  }

  /** `s` with goroutine `i` at `pc`. */
  function At(s: State, i: nat, pc: Pc, c: Client, lock: Option<nat>, dials: nat): State
    requires i < |s.threads|
  {
    State(c, lock, s.cancelled, s.threads[i := s.threads[i].(pc := pc)], dials)
  }

  /** Goroutine `i`, the only one that has moved since `s`, takes one more step. */
  lemma Hop(max: int, s: State, i: nat, pc: Pc, c: Client, lock: Option<nat>, dials: nat, e: Effect)
    requires i < |s.threads| && Reaches(max, s, At(s, i, pc, c, lock, dials))
    requires Local(max, c, lock.None?, s.cancelled, s.threads[i].(pc := pc), Failure) == Some(e)
    requires e.started.None? && !pc.Cancel?
    ensures Reaches(max, s, At(s, i, e.pc, e.c, After(At(s, i, pc, c, lock, dials), i, e).lock, dials + If(pc.Dial?)))
  {
    var t := At(s, i, pc, c, lock, dials);
    var u := At(s, i, e.pc, e.c, After(t, i, e).lock, dials + If(pc.Dial?));
    assert u.threads == t.threads[i := t.threads[i].(pc := e.pc)] + [];
    OneStep(max, t, i, u);
    Then(max, s, t, u);
  }

  lemma OneStep(max: int, t: State, i: nat, u: State)
    requires Next(max, t, Go(i, Failure)) == Some(u) && i < |t.threads|
    ensures Reaches(max, t, u)
  {
    Stay(max, u);
    FirstStep(max, t, Go(i, Failure), u, u);
  }

  lemma Stay(max: int, s: State)
    ensures Reaches(max, s, s)
  {
    assert Leads(max, s, [], s);
  }

  predicate Quiet(max: int, s: State) {
    s.lock.None? && !s.cancelled && !s.c.gaveUp
  }

  lemma EntersAndMarks(max: int, s: State, i: nat)
    requires i < |s.threads| && s.threads[i].pc.Enter? && Quiet(max, s)
    ensures Reaches(max, s, At(s, i, Drop, s.c.(connected := false), Some(i), s.dials))
  {
    Stay(max, s);
    assert s == At(s, i, Enter, s.c, None, s.dials);
    Hop(max, s, i, Enter, s.c, None, s.dials, Effect(Mark, s.c, Take, None));
    Hop(max, s, i, Mark, s.c, Some(i), s.dials, Effect(Drop, s.c.(connected := false), Keep, None));
  }

  /** A goroutine enters handleReconnect and passes the limit check. */
  lemma Pass(max: int, s: State, i: nat)
    requires i < |s.threads| && s.threads[i].pc.Enter? && Quiet(max, s) && s.c.reconnectCount < max
    ensures Reaches(max, s, At(s, i, Count, Client(None, false, s.c.reconnectCount, false), None, s.dials))
  {
    var c := s.c.(connected := false);
    var d := c.(conn := None);
    EntersAndMarks(max, s, i);
    Hop(max, s, i, Drop, c, Some(i), s.dials, Effect(Decide, d, Keep, None));
    Hop(max, s, i, Decide, d, Some(i), s.dials, Effect(Count, d, Free, None));
  }

  lemma Counts(max: int, s: State, i: nat)
    requires i < |s.threads| && s.threads[i].pc.Count? && Quiet(max, s)
    ensures Reaches(max, s, At(s, i, DialWait, s.c.(reconnectCount := s.c.reconnectCount + 1), None, s.dials))
  {
    Stay(max, s);
    assert s == At(s, i, Count, s.c, None, s.dials);
    var c := s.c.(reconnectCount := s.c.reconnectCount + 1);
    Hop(max, s, i, Count, s.c, None, s.dials, Effect(DialWait, c, Keep, None));
  }

  /** It counts its attempt and dials in vain. */
  lemma Attempt(max: int, s: State, i: nat)
    requires i < |s.threads| && s.threads[i].pc.Count? && Quiet(max, s)
    requires s.threads[i].role.Reader? || s.threads[i].role.Handler?
    ensures Reaches(max, s, At(s, i, Respawn, s.c.(reconnectCount := s.c.reconnectCount + 1), None, s.dials + 1))
  {
    var c := s.c.(reconnectCount := s.c.reconnectCount + 1);
    Counts(max, s, i);
    Hop(max, s, i, DialWait, c, None, s.dials, Effect(Dial, c, Take, None));
    Hop(max, s, i, Dial, c, Some(i), s.dials, Effect(Respawn, c, Free, None));
  }

  /** The reader's way from the head of its loop into handleReconnect. */
  lemma Notice(max: int, s: State)
    requires |s.threads| > 0 && s.threads[0] == Thread(Reader, Top) && Quiet(max, s)
    ensures Reaches(max, s, At(s, 0, Enter, s.c, None, s.dials))
  {
    Stay(max, s);
    assert s == At(s, 0, Top, s.c, None, s.dials);
    Hop(max, s, 0, Top, s.c, None, s.dials, Effect(Look, s.c, Keep, None));
    if s.c.conn.Some? {
      ReadFails(max, s);
    } else {
      Hop(max, s, 0, Look, s.c, None, s.dials, Effect(Enter, s.c, Keep, None));
    }
  }

  lemma ReadFails(max: int, s: State)
    requires |s.threads| > 0 && s.threads[0].role.Reader? && Quiet(max, s) && s.c.conn.Some?
    requires Reaches(max, s, At(s, 0, Look, s.c, None, s.dials))
    ensures Reaches(max, s, At(s, 0, Enter, s.c, None, s.dials))
  {
    Hop(max, s, 0, Look, s.c, None, s.dials, Effect(Read, s.c, Keep, None));
    Hop(max, s, 0, Read, s.c, None, s.dials, Effect(Enter, s.c, Keep, None));
  }

  /** Only the last place of a goroutine shows. */
  lemma SameAt(s: State, i: nat, pc: Pc, c: Client, pc': Pc, c': Client, dials: nat, dials': nat)
    requires i < |s.threads|
    ensures At(At(s, i, pc, c, None, dials), i, pc', c', None, dials') == At(s, i, pc', c', None, dials')
  {
  }

  lemma ReaderPasses(max: int, s: State)
    requires |s.threads| > 0 && s.threads[0] == Thread(Reader, Top) && Quiet(max, s) && s.c.reconnectCount < max
    ensures Reaches(max, s, At(s, 0, Count, Client(None, false, s.c.reconnectCount, false), None, s.dials))
  {
    Notice(max, s);
    var t := At(s, 0, Enter, s.c, None, s.dials);
    var c := Client(None, false, s.c.reconnectCount, false);
    Pass(max, t, 0);
    SameAt(s, 0, Enter, s.c, Count, c, s.dials, s.dials);
    Then(max, s, t, At(s, 0, Count, c, None, s.dials));
  }

  /** The reader fails one reconnection; it is about to start a handler. */
  lemma ReaderFails(max: int, s: State)
    requires |s.threads| > 0 && s.threads[0] == Thread(Reader, Top) && Quiet(max, s) && s.c.reconnectCount < max
    ensures Reaches(max, s, At(s, 0, Respawn, Client(None, false, s.c.reconnectCount + 1, false), None, s.dials + 1))
  {
    var n := s.c.reconnectCount;
    ReaderPasses(max, s);
    var u := At(s, 0, Count, Client(None, false, n, false), None, s.dials);
    Attempt(max, u, 0);
    SameAt(s, 0, Count, u.c, Respawn, Client(None, false, n + 1, false), s.dials, s.dials + 1);
    Then(max, s, u, At(s, 0, Respawn, Client(None, false, n + 1, false), None, s.dials + 1));
  }

  /** `n` handlers past the limit check, not yet counted; the reader at `pc`. */
  function Waiting(pc: Pc, n: nat, conn: Option<nat>, count: int, dials: nat): State {
    State(Client(conn, conn.Some?, count, false), None, false,
          [Thread(Reader, pc)] + seq(n, _ => Thread(Handler, Count)), dials)
  }

  /** One pass of the reader leaves one more waiting handler. */
  lemma OneMore(max: int, n: nat, conn: Option<nat>)
    requires n + 1 < max
    ensures Reaches(max, Waiting(Top, n, conn, n, n), Waiting(Top, n + 1, None, n + 1, n + 1))
  {
    var s := Waiting(Top, n, conn, n, n);
    ReaderFails(max, s);
    var t := At(s, 0, Respawn, Client(None, false, n + 1, false), None, n + 1);
    var u := State(t.c, None, false, t.threads[0 := Thread(Reader, Top)] + [Thread(Handler, Enter)], n + 1);
    OneStep(max, t, 0, u);
    Then(max, s, t, u);
    Pass(max, u, n + 1);
    NewHandlerWaits(u, n, conn);
    Then(max, s, u, At(u, n + 1, Count, Client(None, false, n + 1, false), None, n + 1));
  }

  lemma NewHandlerWaits(u: State, n: nat, conn: Option<nat>)
    requires u.threads == Waiting(Top, n, conn, n, n).threads + [Thread(Handler, Enter)] && !u.cancelled
    ensures At(u, n + 1, Count, Client(None, false, n + 1, false), None, n + 1)
            == Waiting(Top, n + 1, None, n + 1, n + 1)
  {
  }

  lemma {:induction false} Gather(max: int, n: nat, conn: nat)
    requires n < max
    ensures Reaches(max, Started(conn), Waiting(Top, n, if n == 0 then Some(conn) else None, n, n))
  {
    if n == 0 {
      assert Started(conn) == Waiting(Top, 0, Some(conn), 0, 0);
      Stay(max, Started(conn));
    } else {
      var prev := if n == 1 then Some(conn) else None;
      Gather(max, n - 1, conn);
      OneMore(max, n - 1, prev);
      Then(max, Started(conn), Waiting(Top, n - 1, prev, n - 1, n - 1), Waiting(Top, n, None, n, n));
    }
  }

  /** The waiting handlers count and dial after the limit has been reached. */
  lemma {:induction false} Drain(max: int, s: State, n: nat)
    requires n < |s.threads| && Quiet(max, s)
    requires forall i :: 1 <= i <= n ==> s.threads[i] == Thread(Handler, Count)
    ensures exists t :: Reaches(max, s, t) && t.dials == s.dials + n
    decreases n
  {
    if n == 0 {
      Stay(max, s);
    } else {
      Attempt(max, s, n);
      var t := At(s, n, Respawn, s.c.(reconnectCount := s.c.reconnectCount + 1), None, s.dials + 1);
      Drain(max, t, n - 1);
      var u :| Reaches(max, t, u) && u.dials == t.dials + n - 1;
      Then(max, s, t, u);
    }
  }

  /** For every limit some failing schedule makes as many dials as DialBound allows. */
  lemma DialBoundIsExact(max: int, conn: nat)
    ensures exists acts :: FailingRun(max, Started(conn), acts)
                           && Exec(max, Started(conn), acts).Some?
                           && Exec(max, Started(conn), acts).value.dials == Limit(max)
  {
    var s := Started(conn);
    if max < 1 {
      assert Leads(max, s, [], s);
    } else {
      Gather(max, max - 1, conn);
      var w := Waiting(Top, max - 1, if max == 1 then Some(conn) else None, max - 1, max - 1);
      ReaderFails(max, w);
      var t := At(w, 0, Respawn, Client(None, false, max, false), None, max);
      Then(max, s, w, t);
      Drain(max, t, max - 1);
      var u :| Reaches(max, t, u) && u.dials == t.dials + (max - 1);
      Then(max, s, t, u);
    }
  }

  /** The configured limit bounds the dials of all failing schedules only up to 1: from 2 on, some
      schedule makes more. */
  lemma LimitHoldsIff(max: int, conn: nat)
    requires max >= 0
    ensures (forall acts :: FailingRun(max, Started(conn), acts) ==>
               Exec(max, Started(conn), acts).Some? && Exec(max, Started(conn), acts).value.dials <= max)
            <==> max <= 1
  {
    if max <= 1 {
      forall acts | FailingRun(max, Started(conn), acts)
        ensures Exec(max, Started(conn), acts).Some? && Exec(max, Started(conn), acts).value.dials <= max
      {
        DialBound(max, conn, acts);
      }
    } else {
      DialBoundIsExact(max, conn);
      var acts :| FailingRun(max, Started(conn), acts) && Exec(max, Started(conn), acts).Some?
                  && Exec(max, Started(conn), acts).value.dials == Limit(max);
    }
  }
}
