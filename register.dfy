/** Machine registration at start-up (happier/src/register.rs): the runner posts its
    machine record to the hub up to 60 times, sleeping between failed attempts with a delay
    that starts at one second and doubles up to thirty seconds.

    The HTTP request is I/O: `reply(a)` is what attempt number `a` met. Delays are whole
    seconds. */
module Register {
  import opened Base

  const MAX_ATTEMPTS: nat := 60
  const FIRST_DELAY: nat := 1
  const MAX_DELAY: nat := 30

  /** What one attempt met: an HTTP response with its status, or a transport error. */
  datatype Reply = Response(status: nat) | TransportError(message: string)

  /** Only a 2xx response registers the machine; other statuses and transport errors are
      failed attempts alike. */
  predicate Succeeded(reply: Reply) {
    reply.Response? && 200 <= reply.status <= 299
  }

  /** The delay after a failed attempt that slept `delay`. */
  function NextDelay(delay: nat): nat {
    Min(2 * delay, MAX_DELAY)
  }

  /** The delay slept after failed attempt number `k + 1`. */
  function DelayAfter(k: nat): (r: nat)
    ensures FIRST_DELAY <= r <= MAX_DELAY
  {
    if k == 0 then FIRST_DELAY else NextDelay(DelayAfter(k - 1))
  }

  /** The first `n` delays, in order. */
  function Schedule(n: nat): (r: seq<nat>)
    ensures |r| == n && forall k | 0 <= k < n :: r[k] == DelayAfter(k)
  {
    if n == 0 then [] else Schedule(n - 1) + [DelayAfter(n - 1)]
  }

  /** `register_machine`: the attempts it made, the delays it slept, and whether it
      returned `Ok`. */
  method RegisterMachine(reply: nat -> Reply) returns (registered: bool, attempts: nat, sleeps: seq<nat>)
    ensures 1 <= attempts <= MAX_ATTEMPTS
    ensures forall a | 1 <= a < attempts :: !Succeeded(reply(a))
    ensures registered <==> Succeeded(reply(attempts))
    ensures !registered ==> attempts == MAX_ATTEMPTS
    ensures sleeps == Schedule(attempts - 1)
  {
    var delay := FIRST_DELAY;
    sleeps := [];
    for attempt := 1 to MAX_ATTEMPTS + 1
      invariant sleeps == Schedule(Min(attempt - 1, MAX_ATTEMPTS - 1))
      invariant delay == DelayAfter(|sleeps|)
      invariant forall a | 1 <= a < attempt :: !Succeeded(reply(a))
    {
      if Succeeded(reply(attempt)) {
        return true, attempt, sleeps;
      }
      if attempt < MAX_ATTEMPTS {
        sleeps := sleeps + [delay];
        delay := NextDelay(delay);
      }
    }
    assert !Succeeded(reply(MAX_ATTEMPTS));
    return false, MAX_ATTEMPTS, sleeps;
  }

  /** The delays run 1, 2, 4, 8, 16 seconds and stay at 30 from the sixth on. */
  lemma {:induction false} DelaySequence(k: nat)
    ensures Schedule(5) == [1, 2, 4, 8, 16]
    ensures k >= 5 ==> DelayAfter(k) == MAX_DELAY
  {
    if k > 5 {
      DelaySequence(k - 1);
    }
  }

  function Sum(s: seq<nat>): nat {
    if s == [] then 0 else Sum(s[..|s| - 1]) + s[|s| - 1]
  }

  /** Sleeping through `n >= 5` delays takes 31 seconds for the first five and 30 for each
      one after. */
  lemma {:induction false} ScheduleTotal(n: nat)
    requires n >= 5
    ensures Sum(Schedule(n)) == 31 + 30 * (n - 5)
  {
    if n == 5 {
      DelaySequence(5);
      assert Schedule(5)[..4] == [1, 2, 4, 8];
      assert Schedule(5)[..4][..3] == [1, 2, 4];
      assert Schedule(5)[..4][..3][..2] == [1, 2];
      assert Schedule(5)[..4][..3][..2][..1] == [1];
    } else {
      ScheduleTotal(n - 1);
      DelaySequence(n - 1);
      assert Schedule(n)[..n - 1] == Schedule(n - 1);
    }
  }

  /** A registration that never succeeds makes 60 attempts and sleeps 59 times, 1651
      seconds in all. */
  lemma ExhaustedWait()
    ensures |Schedule(MAX_ATTEMPTS - 1)| == 59
    ensures Sum(Schedule(MAX_ATTEMPTS - 1)) == 1651
  {
    ScheduleTotal(59);
  }
}
