/** The runner's reconnect loop (happier/src/main.rs, `run` after registration): connect to
    the hub, announce the initial state, serve tunnels until the connection drops, and wait
    before reconnecting with a back-off that starts at one second, doubles up to thirty
    seconds and goes back to one second on every successful connect.

    The loop never ends of its own accord; the model runs it over a finite sequence of
    rounds, each telling what that round met (the connect's outcome, the emit's outcome,
    whether SIGINT or SIGTERM arrived during a wait that watches for them). */
module Runner {
  import opened Base
  import Register

  const INITIAL_BACKOFF: nat := 1
  const MAX_BACKOFF: nat := 30

  /** What one pass of the loop met. */
  datatype Round =
      /** The connect failed; `signalled` if a signal came during the retry wait. */
    | ConnectFailed(signalled: bool)
      /** Connected, but emitting the initial state failed. The wait that follows does
          not watch for signals. */
    | EmitFailed
      /** Connected and serving; a signal during the session or during the pause after
          the connection dropped. */
    | Session(signalledInSession: bool, signalledInPause: bool)

  /** A wait of the back-off of that moment begins (a signal may cut it short), or a
      disconnect is sent to the hub. */
  datatype Effect = Wait(seconds: nat) | Disconnect

  /** The back-off after the rounds, what they did, and whether a signal ended `run`. */
  datatype Outcome = Outcome(backoff: nat, effects: seq<Effect>, stopped: bool)

  predicate Signalled(round: Round) {
    match round
    case ConnectFailed(signalled) => signalled
    case EmitFailed => false
    case Session(inSession, inPause) => inSession || inPause
  }

  function Doubled(backoff: nat): nat {
    Min(2 * backoff, MAX_BACKOFF)
  }

  /** One pass of the loop, from the back-off it starts with. */
  function RoundStep(backoff: nat, round: Round): Outcome {
    match round
    case ConnectFailed(signalled) =>
      if signalled then Outcome(backoff, [Wait(backoff)], true)
      else Outcome(Doubled(backoff), [Wait(backoff)], false)
    case EmitFailed =>
      Outcome(Doubled(INITIAL_BACKOFF), [Disconnect, Wait(INITIAL_BACKOFF)], false)
    case Session(inSession, inPause) =>
      if inSession then Outcome(INITIAL_BACKOFF, [Disconnect], true)
      else if inPause then Outcome(INITIAL_BACKOFF, [Wait(INITIAL_BACKOFF)], true)
      else Outcome(Doubled(INITIAL_BACKOFF), [Wait(INITIAL_BACKOFF)], false)
  }

  /** `effects` happened before `rest`. */
  function After(effects: seq<Effect>, rest: Outcome): Outcome {
    Outcome(rest.backoff, effects + rest.effects, rest.stopped)
  }

  /** The loop over `rounds`, stopping at the first signal. */
  function RunRounds(backoff: nat, rounds: seq<Round>): Outcome
    decreases |rounds|
  {
    if rounds == [] then Outcome(backoff, [], false)
    else
      var first := RoundStep(backoff, rounds[0]);
      if first.stopped then first
      else After(first.effects, RunRounds(first.backoff, rounds[1..]))
  }

  lemma AfterAfter(a: seq<Effect>, b: seq<Effect>, o: Outcome)
    ensures After(a, After(b, o)) == After(a + b, o)
  {
  }

  /** `run`'s reconnect loop, with its `backoff` variable. */
  method Run(rounds: seq<Round>) returns (backoff: nat, effects: seq<Effect>, stopped: bool)
    ensures Outcome(backoff, effects, stopped) == RunRounds(INITIAL_BACKOFF, rounds)
  {
    backoff := INITIAL_BACKOFF;
    effects := [];
    stopped := false;
    var i := 0;
    while i < |rounds|
      invariant 0 <= i <= |rounds|
      invariant RunRounds(INITIAL_BACKOFF, rounds) == After(effects, RunRounds(backoff, rounds[i..]))
    {
      assert rounds[i..][1..] == rounds[i + 1..];
      ghost var before := effects;
      AfterAfter(before, RoundStep(backoff, rounds[i]).effects, RunRounds(RoundStep(backoff, rounds[i]).backoff, rounds[i + 1..]));
      match rounds[i] {
        case ConnectFailed(signalled) =>
          effects := effects + [Wait(backoff)];
          if signalled {
            return backoff, effects, true;
          }
          backoff := Doubled(backoff);
        case EmitFailed =>
          backoff := INITIAL_BACKOFF;
          effects := effects + [Disconnect, Wait(backoff)];
          backoff := Doubled(backoff);
        case Session(inSession, inPause) =>
          backoff := INITIAL_BACKOFF;
          if inSession {
            effects := effects + [Disconnect];
            return backoff, effects, true;
          }
          effects := effects + [Wait(backoff)];
          if inPause {
            return backoff, effects, true;
          }
          backoff := Doubled(backoff);
      }
      i := i + 1;
    }
    assert rounds[i..] == [];
    AppendEmpty(effects);
  }

  // ------------------------------------------------------------ properties

  predicate InRange(backoff: nat) {
    INITIAL_BACKOFF <= backoff <= MAX_BACKOFF
  }

  predicate WaitInRange(e: Effect) {
    e.Wait? ==> InRange(e.seconds)
  }

  /** The back-off stays within one to thirty seconds, and so does every wait. */
  lemma {:induction false} BackoffInRange(backoff: nat, rounds: seq<Round>)
    requires InRange(backoff)
    ensures InRange(RunRounds(backoff, rounds).backoff)
    ensures All(WaitInRange, RunRounds(backoff, rounds).effects)
    decreases |rounds|
  {
    if rounds != [] {
      var first := RoundStep(backoff, rounds[0]);
      if !first.stopped {
        BackoffInRange(first.backoff, rounds[1..]);
      }
    }
  }

  /** `run` ends exactly when a signal arrives during a wait that watches for it. */
  lemma {:induction false} StopsOnSignal(backoff: nat, rounds: seq<Round>)
    ensures RunRounds(backoff, rounds).stopped <==> exists i | 0 <= i < |rounds| :: Signalled(rounds[i])
    decreases |rounds|
  {
    if rounds != [] {
      var first := RoundStep(backoff, rounds[0]);
      if !first.stopped {
        StopsOnSignal(first.backoff, rounds[1..]);
        if exists i | 0 <= i < |rounds| :: Signalled(rounds[i]) {
          var i :| 0 <= i < |rounds| && Signalled(rounds[i]);
          assert i > 0 && Signalled(rounds[1..][i - 1]);
        }
        if exists i | 0 <= i < |rounds| - 1 :: Signalled(rounds[1..][i]) {
          var i :| 0 <= i < |rounds| - 1 && Signalled(rounds[1..][i]);
          assert Signalled(rounds[i + 1]);
        }
      }
    }
  }

  predicate Connected(round: Round) {
    round.EmitFailed? || round.Session?
  }

  /** A round that connects resets the back-off whatever it was: it waits one second, and
      unless a signal ended `run` the next round starts from two seconds. */
  lemma ConnectResets(b1: nat, b2: nat, round: Round)
    requires Connected(round)
    ensures RoundStep(b1, round) == RoundStep(b2, round)
    ensures forall k | 0 <= k < |RoundStep(b1, round).effects| && RoundStep(b1, round).effects[k].Wait? ::
              RoundStep(b1, round).effects[k].seconds == INITIAL_BACKOFF
    ensures !RoundStep(b1, round).stopped ==> RoundStep(b1, round).backoff == 2
  {
  }

  function Failures(n: nat): seq<Round> {
    seq(n, _ => ConnectFailed(false))
  }

  function Waits(delays: seq<nat>): seq<Effect> {
    MapSeq(d => Wait(d), delays)
  }

  /** From the start of `run` (back-off one second), consecutive failed connects wait 1, 2,
      4, 8, 16, 30, 30, ... seconds: the same schedule as registration. */
  lemma {:induction false} FailuresFollowSchedule(n: nat)
    ensures RunRounds(INITIAL_BACKOFF, Failures(n)) == Outcome(Register.DelayAfter(n), Waits(Register.Schedule(n)), false)
  {
    if n > 0 {
      FailuresFollowSchedule(n - 1);
      FailuresFrom(INITIAL_BACKOFF, n - 1, 1);
      assert Failures(n) == Failures(n - 1) + [ConnectFailed(false)];
      assert Register.Schedule(n) == Register.Schedule(n - 1) + [Register.DelayAfter(n - 1)];
      MapSeqSnoc(d => Wait(d), Register.Schedule(n));
    }
  }

  /** After a connected round, consecutive failed connects wait 2, 4, 8, 16, 30, 30, ...
      seconds: the registration schedule without its first delay, because the connected
      round reset the back-off to one second and then doubled it. */
  lemma FailuresAfterConnect(backoff: nat, round: Round, n: nat)
    requires Connected(round) && !Signalled(round)
    ensures RunRounds(backoff, [round] + Failures(n))
            == After(RoundStep(backoff, round).effects,
                     Outcome(Register.DelayAfter(n + 1), Waits(Register.Schedule(n + 1)[1..]), false))
  {
    StopsOnSignal(backoff, [round]);
    ConnectResets(backoff, backoff, round);
    assert ([round] + Failures(n))[1..] == Failures(n);
    FailuresAfterFirst(n);
  }

  /** Failed connects starting from a two-second back-off follow the schedule from its
      second delay. */
  lemma FailuresAfterFirst(n: nat)
    ensures RunRounds(2, Failures(n)) == Outcome(Register.DelayAfter(n + 1), Waits(Register.Schedule(n + 1)[1..]), false)
  {
    FailuresFollowSchedule(n + 1);
    FailuresFrom(INITIAL_BACKOFF, 1, n);
    FailuresFollowSchedule(1);
    var all := Waits(Register.Schedule(n + 1));
    assert all == [all[0]] + all[1..];
    assert all[1..] == Waits(Register.Schedule(n + 1)[1..]);
  }

  /** Failed connects can be split: `a` of them followed by `b` more. */
  lemma {:induction false} FailuresFrom(backoff: nat, a: nat, b: nat)
    ensures RunRounds(backoff, Failures(a + b))
            == After(RunRounds(backoff, Failures(a)).effects, RunRounds(RunRounds(backoff, Failures(a)).backoff, Failures(b)))
    ensures !RunRounds(backoff, Failures(a)).stopped
    decreases a
  {
    if a > 0 {
      assert Failures(a + b)[1..] == Failures(a - 1 + b);
      assert Failures(a)[1..] == Failures(a - 1);
      FailuresFrom(Doubled(backoff), a - 1, b);
      AfterAfter([Wait(backoff)], RunRounds(Doubled(backoff), Failures(a - 1)).effects,
                 RunRounds(RunRounds(Doubled(backoff), Failures(a - 1)).backoff, Failures(b)));
    } else {
      assert Failures(0 + b) == Failures(b);
    }
  }
}
