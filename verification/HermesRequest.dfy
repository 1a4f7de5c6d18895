/** The HTTP request loop of pyth/client.go: retries with a doubling pause, in Go's 64-bit integers. */
module HermesRequest {
  const MAX_INT64 := 0x7fff_ffff_ffff_ffff
  const TWO_TO_THE_64 := 0x1_0000_0000_0000_0000
  const MILLISECOND := 1_000_000

  /** The value an int64 holds after arithmetic gave `x`. */
  function Wrap(x: int): int {
    (x + MAX_INT64 + 1) % TWO_TO_THE_64 - MAX_INT64 - 1
  }

  function Pow2(n: nat): nat {
    if n == 0 then 1 else 2 * Pow2(n - 1)
  }

  datatype Response =
    | Unbuildable                         // http.NewRequest refused
    | NoAnswer                            // httpClient.Do failed
    | Answered(status: int, decodes: bool)

  predicate GoodStatus(r: Response) {
    r.Answered? && 200 <= r.status < 300
  }

  /** Outcomes after which another request is tried. */
  predicate Retriable(r: Response) {
    !r.Unbuildable? && !GoodStatus(r)
  }

  predicate Success(r: Response) {
    GoodStatus(r) && r.decodes
  }

  /** The backoff before retry `k + 1`, in milliseconds. */
  function Backoff(b: int, k: nat): int {
    Wrap(b * Pow2(k))
  }

  /** The duration handed to the sleep before retry `k + 1`, in nanoseconds. */
  function Pause(b: int, k: nat): int {
    Wrap(Backoff(b, k) * MILLISECOND)
  }

  /** The first attempt, from number `from` on, that is not followed by another one. */
  ghost function LastAttempt(from: nat, httpRetries: nat, response: nat -> Response): (k: nat)
    requires from <= httpRetries
    ensures from <= k <= httpRetries && forall i :: from <= i < k ==> Retriable(response(i))
    ensures k == httpRetries || !Retriable(response(k))
    decreases httpRetries - from
  {
    if from == httpRetries || !Retriable(response(from)) then from else LastAttempt(from + 1, httpRetries, response)
  }

  /** `b` is the random first backoff in milliseconds. */
  method HttpRequest(httpRetries: int, b: int, response: nat -> Response)
    returns (failed: bool, requests: nat, pauses: seq<int>)
    requires 100 <= b < 200
    ensures httpRetries < 0 ==> !failed && requests == 0 && pauses == []
    ensures httpRetries >= 0 ==>
              var k := LastAttempt(0, httpRetries, response);
              && requests == (if response(k).Unbuildable? then k else k + 1)
              && (failed <==> !Success(response(k)))
              && |pauses| == k && forall i :: 0 <= i < k ==> pauses[i] == Pause(b, i)
  {
    requests, pauses := 0, [];
    var backoff, attempt := b, 0;
    WrapIffFits(b);
    while attempt <= httpRetries
      invariant 0 <= attempt && (attempt <= httpRetries || attempt == 0)
      invariant requests == attempt && backoff == Backoff(b, attempt)
      invariant attempt <= httpRetries ==>
                  LastAttempt(0, httpRetries, response) == LastAttempt(attempt, httpRetries, response)
      invariant |pauses| == attempt && forall i :: 0 <= i < attempt ==> pauses[i] == Pause(b, i)
      decreases httpRetries - attempt
    {
      var r := response(attempt);
      if r.Unbuildable? {
        return true, requests, pauses;
      }
      requests := requests + 1;
      if !GoodStatus(r) {
        if attempt < httpRetries {
          pauses := pauses + [Wrap(backoff * MILLISECOND)];
          NextBackoff(b, attempt);
          backoff := Wrap(backoff * 2);
          attempt := attempt + 1;
          continue;
        }
        return true, requests, pauses;
      }
      return !r.decodes, requests, pauses;
    }
    failed := false;
  }

  // ---------- arithmetic of wrapping ----------

  lemma WrapIs(x: int, q: int)
    requires -MAX_INT64 - 1 <= x - q * TWO_TO_THE_64 <= MAX_INT64
    ensures Wrap(x) == x - q * TWO_TO_THE_64
  {
  }

  lemma WrapProduct(x: int, y: int)
    ensures Wrap(Wrap(x) * y) == Wrap(x * y)
  {
    var q := (x + MAX_INT64 + 1) / TWO_TO_THE_64;
    var p := (x * y + MAX_INT64 + 1) / TWO_TO_THE_64;
    assert Wrap(x) == x - q * TWO_TO_THE_64;
    assert Wrap(x) * y == x * y - (q * y) * TWO_TO_THE_64;
    WrapIs(Wrap(x) * y, p - q * y);
  }

  lemma NextBackoff(b: int, k: nat)
    ensures Wrap(Backoff(b, k) * 2) == Backoff(b, k + 1)
  {
    WrapProduct(b * Pow2(k), 2);
    assert b * Pow2(k) * 2 == b * Pow2(k + 1);
  }

  lemma WrapIffFits(x: int)
    ensures Wrap(x) == x <==> -MAX_INT64 - 1 <= x <= MAX_INT64
  {
  }

  lemma {:induction false} Pow2Grows(i: nat, j: nat)
    requires i <= j
    ensures Pow2(i) <= Pow2(j)
  {
    if i < j {
      Pow2Grows(i, j - 1);
    }
  }

  lemma Scaled(b: int, c: int, p: int, q: int)
    requires 0 <= b <= c && 0 <= p <= q
    ensures b * p * MILLISECOND <= c * q * MILLISECOND
  {
  }

  // ---------- main results ----------

  /** No answer, or one with a status outside 200 to 299. */
  predicate Fails(r: Response) {
    r.NoAnswer? || (r.Answered? && (r.status <= 199 || r.status >= 300))
  }

  /** The loop succeeds exactly if some attempt within the retries is answered with a status from 200 to 299
      and a body that decodes, and all before it got no answer or a status outside that range. */
  lemma SucceedsIff(httpRetries: nat, response: nat -> Response)
    ensures Success(response(LastAttempt(0, httpRetries, response))) <==>
            exists k :: 0 <= k <= httpRetries
                        && response(k).Answered? && 200 <= response(k).status <= 299 && response(k).decodes
                        && forall i :: 0 <= i < k ==> Fails(response(i))
  {
    var k := LastAttempt(0, httpRetries, response);
    if Success(response(k)) {
      forall i | 0 <= i < k ensures Fails(response(i)) {
        assert Retriable(response(i));
      }
    }
    if j :| 0 <= j <= httpRetries && Success(response(j)) && forall i :: 0 <= i < j ==> Fails(response(i)) {
      assert k == j;
    }
  }

  /** The pause before retry k + 1 is the first backoff times 2^k milliseconds exactly if that many
      nanoseconds fit a duration. */
  lemma PauseDoublesIff(b: int, k: nat)
    requires b > 0
    ensures Pause(b, k) == b * Pow2(k) * MILLISECOND <==> b * Pow2(k) * MILLISECOND <= MAX_INT64
  {
    WrapProduct(b * Pow2(k), MILLISECOND);
    WrapIffFits(b * Pow2(k) * MILLISECOND);
  }

  ghost predicate PausesDouble(b: int, retries: nat) {
    forall k :: 0 <= k < retries ==> Pause(b, k) == b * Pow2(k) * MILLISECOND
  }

  lemma PausesDoubleIff(b: int, retries: nat)
    requires b > 0
    ensures PausesDouble(b, retries) <==> retries == 0 || b * Pow2(retries - 1) * MILLISECOND <= MAX_INT64
  {
    if retries > 0 {
      PauseDoublesIff(b, retries - 1);
      forall k | 0 <= k < retries
        ensures b * Pow2(retries - 1) * MILLISECOND <= MAX_INT64 ==> Pause(b, k) == b * Pow2(k) * MILLISECOND
      {
        Pow2Grows(k, retries - 1);
        Scaled(b, b, Pow2(k), Pow2(retries - 1));
        PauseDoublesIff(b, k);
      }
    }
  }

  lemma Powers()
    ensures Pow2(35) == 0x8_0000_0000 && Pow2(36) == 0x10_0000_0000
  {
    assert Pow2(8) == 256 && Pow2(16) == 65536 && Pow2(24) == 0x100_0000;
    assert Pow2(32) == 0x1_0000_0000;
  }

  /** No pause overflows, whatever the random start, exactly with at most 36 retries. */
  lemma AllPausesDoubleIff(retries: nat)
    ensures (forall b :: 100 <= b < 200 ==> PausesDouble(b, retries)) <==> retries <= 36
  {
    Powers();
    if retries <= 36 {
      forall b | 100 <= b < 200 ensures PausesDouble(b, retries) {
        SmallPauses(b, retries);
      }
    } else {
      PausesDoubleIff(199, retries);
      Pow2Grows(36, retries - 1);
      Scaled(199, 199, 0x10_0000_0000, Pow2(retries - 1));
      assert !PausesDouble(199, retries);
    }
  }

  lemma SmallPauses(b: int, retries: nat)
    requires 100 <= b < 200 && retries <= 36
    ensures PausesDouble(b, retries)
  {
    PausesDoubleIff(b, retries);
    if retries > 0 {
      Powers();
      Pow2Grows(retries - 1, 35);
      Scaled(b, 199, Pow2(retries - 1), 0x8_0000_0000);
    }
  }

  function Total(s: seq<int>): int {
    if s == [] then 0 else Total(s[..|s| - 1]) + s[|s| - 1]
  }

  lemma NextTotal(b: int, p: int)
    ensures b * (p - 1) * MILLISECOND + b * p * MILLISECOND == b * (2 * p - 1) * MILLISECOND
  {
  }

  /** When every attempt fails and no pause overflows, the pauses add up to b * (2^retries - 1)
      milliseconds. */
  lemma {:induction false} TotalPause(b: int, pauses: seq<int>)
    requires b > 0 && PausesDouble(b, |pauses|)
    requires forall i :: 0 <= i < |pauses| ==> pauses[i] == Pause(b, i)
    ensures Total(pauses) == b * (Pow2(|pauses|) - 1) * MILLISECOND
  {
    if pauses != [] {
      var n := |pauses| - 1;
      TotalPause(b, pauses[..n]);
      NextTotal(b, Pow2(n));
    }
  }
}
