/** How many readers share a connection (pyth/pythwebsocket.go): a reader that has reconnected goes on
    reading, and has started another reader. */
module ReconnectReaders {
  import opened Wrappers
  import opened Reconnect
  import opened ReconnectGoroutines
  import ReconnectBound

  /** `n` readers about to read from the open connection `conn`, after so many dials. */
  function Readers(conn: nat, n: nat, dials: nat): State {
    State(Client(Some(conn), true, 0, false), None, false, seq(n, _ => Thread(Reader, Top)), dials)
  }

  predicate OnlyGo(acts: seq<Action>) {
    forall a <- acts :: a.Go?
  }

  lemma {:induction false} ExecConcat(max: int, s: State, a: seq<Action>, b: seq<Action>)
    requires Exec(max, s, a).Some?
    ensures Exec(max, s, a + b) == Exec(max, Exec(max, s, a).value, b)
    decreases |a|
  {
    if a == [] {
      assert a + b == b;
    } else {
      assert (a + b)[1..] == a[1..] + b;
      ExecConcat(max, Next(max, s, a[0]).value, a[1..], b);
    }
  }

  /** The first reader after a failed read. */
  function ReadFailed(conn: nat, n: nat, dials: nat): State
    requires n > 0
  {
    var s := Readers(conn, n, dials);
    s.(threads := s.threads[0 := Thread(Reader, Enter)])
  }

  lemma ReadFails(max: int, conn: nat, n: nat, dials: nat, answers: Answers)
    requires n > 0 && answers.read.Failure?
    ensures Alone(max, Readers(conn, n, dials), 0, answers, 3) == Some(ReadFailed(conn, n, dials))
  {
    var s := Readers(conn, n, dials);
    ReaderTurn(max, s, 0, answers);
    assert s.threads[0 := Thread(Reader, Enter)] + [] == ReadFailed(conn, n, dials).threads;
  }

  lemma Reconnected(max: int, conn: nat, n: nat, dials: nat, answers: Answers)
    requires n > 0 && max > 0 && answers.dial == Success(conn)
    ensures Alone(max, ReadFailed(conn, n, dials), 0, answers, 13) == Some(Readers(conn, n + 1, dials + 1))
  {
    var s := ReadFailed(conn, n, dials);
    HandleReconnectSucceeds(max, s, 0, answers);
    assert s.threads[0 := Thread(Reader, Top)] + [Thread(Reader, Top)] == Readers(conn, n + 1, dials + 1).threads;
  }

  /** One failed read and one successful dial make one reader more. */
  lemma OneReaderMore(max: int, conn: nat, n: nat, dials: nat) returns (acts: seq<Action>)
    requires n > 0 && max > 0
    ensures OnlyGo(acts) && Exec(max, Readers(conn, n, dials), acts) == Some(Readers(conn, n + 1, dials + 1))
  {
    var answers := Answers(Failure, Success(conn), Failure);
    var s, t := Readers(conn, n, dials), ReadFailed(conn, n, dials);
    ReadFails(max, conn, n, dials, answers);
    AloneIsASchedule(max, s, 0, answers, 3);
    var a :| OnlyBy(a, 0) && Exec(max, s, a) == Some(t);
    Reconnected(max, conn, n, dials, answers);
    AloneIsASchedule(max, t, 0, answers, 13);
    var b :| OnlyBy(b, 0) && Exec(max, t, b) == Some(Readers(conn, n + 1, dials + 1));
    ExecConcat(max, s, a, b);
    acts := a + b;
  }

  /** With a limit of at least 1 there can be any number of readers on one connection, without any call
      from outside. */
  lemma {:induction false} ReadersPileUp(max: int, conn: nat, n: nat) returns (acts: seq<Action>)
    requires max > 0
    ensures OnlyGo(acts)
    ensures Exec(max, ReconnectBound.Started(conn), acts) == Some(Readers(conn, n + 1, n))
  {
    var s := ReconnectBound.Started(conn);
    if n == 0 {
      assert s.threads == Readers(conn, 1, 0).threads;
      acts := [];
    } else {
      var before := ReadersPileUp(max, conn, n - 1);
      var more := OneReaderMore(max, conn, n, n - 1);
      ExecConcat(max, s, before, more);
      acts := before + more;
    }
  }

  // ---------- exactly when there is one reader ----------

  /** The lines that a reader reaches while nothing is dialled. */
  predicate NeverDials(pc: Pc) {
    match pc
    case Top | Look | Read | Enter | Mark | Drop | Decide | Done => true
    case _ => false
  }

  ghost predicate Single(max: int, s: State) {
    |s.threads| == 1 && NeverDials(s.threads[0].pc) && s.threads[0].role == Reader && s.c.reconnectCount >= max
  }

  lemma StepKeepsSingle(max: int, s: State, a: Action)
    requires Single(max, s) && a.Go? && Next(max, s, a).Some?
    ensures Single(max, Next(max, s, a).value)
  {
  }

  lemma {:induction false} StaysSingle(max: int, s: State, acts: seq<Action>)
    requires Single(max, s) && OnlyGo(acts) && Exec(max, s, acts).Some?
    ensures Single(max, Exec(max, s, acts).value)
    decreases |acts|
  {
    if acts != [] {
      assert acts[0] in acts && forall a <- acts[1..] :: a in acts;
      StepKeepsSingle(max, s, acts[0]);
      StaysSingle(max, Next(max, s, acts[0]).value, acts[1..]);
    }
  }

  ghost predicate OneReader(max: int, conn: nat, acts: seq<Action>) {
    OnlyGo(acts) && Exec(max, ReconnectBound.Started(conn), acts).Some? ==>
      |Exec(max, ReconnectBound.Started(conn), acts).value.threads| == 1
  }

  /** After Start there is one reader, and never another goroutine, in every interleaving exactly if the
      limit allows no reconnection at all. */
  lemma OneReaderIff(max: int, conn: nat)
    ensures (forall acts :: OneReader(max, conn, acts)) <==> max <= 0
  {
    if max <= 0 {
      forall acts ensures OneReader(max, conn, acts) {
        if OnlyGo(acts) && Exec(max, ReconnectBound.Started(conn), acts).Some? {
          StaysSingle(max, ReconnectBound.Started(conn), acts);
        }
      }
    } else {
      var acts := ReadersPileUp(max, conn, 1);
      assert !OneReader(max, conn, acts);
    }
  }
}
