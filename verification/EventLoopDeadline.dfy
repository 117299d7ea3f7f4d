/** How fast the loop must turn for the CGI deadline to come first: exactly the bound of the deadline
    theorem, and a run that misses it by a second. */
module EventLoopDeadline {
  import opened ConnectionIntake
  import opened EventLoop
  import opened EventLoopInvariant
  import opened EventLoopBatch
  import opened EventLoopTiming
  import opened ServerManagers

  // ---------------------------------------------------------------- a late run

  function At(outcome: Outcome, now: int, registered: int): nat -> Call {
    n => Call(outcome, now, registered)
  }

  function Clock(now: int): Fd -> int {
    fd => now
  }

  const NO_IO := IoEnv(0, StillReading, true, WriteMore)
  const READABLE := Events(true, false, false)

  /** A client is accepted, and its request is complete. */
  const ACCEPT := Event(3, READABLE, NO_IO, [Accepted(5, 7, true, 0)], MoreOutput)
  const REQUEST := Event(5, READABLE, NO_IO.(read := RequestComplete), [], MoreOutput)

  const QUIET := At(StaysProcessing, 0, 0)
  const ACCEPTS := Iteration(QUIET, 0, Clock(0), [], 0, [], [ACCEPT])
  const RECEIVES := Iteration(QUIET, 0, Clock(0), [], 0, [], [REQUEST])
  /** process() starts the CGI at 0, but its pipe is registered only at 26. */
  const STARTS := Iteration(At(StartsCgi(9), 0, 26), 26, Clock(26), [], 26, [], [])
  /** Nine seconds later the CGI is not overdue yet. */
  const WAITS := Iteration(At(StaysProcessing, 26, 26), 35, Clock(35), [], 35, [], [])
  /** The next time the sweeps run the connection is idle, and the idle sweep comes first. */
  const LATE := Iteration(At(StaysProcessing, 35, 35), 61, Clock(61), [5], 61, [9], [])

  const LATE_RUN := [ACCEPTS, RECEIVES, STARTS, WAITS, LATE]

  function RoundOf(it: Iteration): Round {
    Round(it.calls, it.idleNow, it.clock, it.cgiNow, it.events)
  }

  const LATE_ROUNDS := [RoundOf(ACCEPTS), RoundOf(RECEIVES), RoundOf(STARTS), RoundOf(WAITS), RoundOf(LATE)]

  // ---------------------------------------------------------------- the states it goes through

  const LISTENING := map[3 := INPUT]
  const READING_MASKS := LISTENING[5 := INPUT]
  const QUEUED_MASKS := LISTENING[5 := NOTHING]
  const WAITING_MASKS := QUEUED_MASKS[9 := INPUT]

  const S0 := Server(map[], map[], [], {}, map[], map[], LISTENING, LISTENING, {3}, {3}, 0, false, false)
  const S1 := Server(map[7 := Conn(5, READING, 0, -1, true)], map[5 := 7], [], {}, map[], map[],
                     READING_MASKS, READING_MASKS, {3, 5}, {3}, 0, false, false)
  const S2 := Server(map[7 := Conn(5, PROCESSING, 0, -1, true)], map[5 := 7], [7], {7}, map[], map[],
                     QUEUED_MASKS, QUEUED_MASKS, {3, 5}, {3}, 0, false, false)
  const S3 := Server(map[7 := Conn(5, WAITING_FOR_CGI, 0, 9, true)], map[5 := 7], [], {}, map[9 := 7], map[9 := 26],
                     WAITING_MASKS, WAITING_MASKS, {3, 5, 9}, {3}, 26, false, false)
  const S4 := S3.(lastSweep := 35)

  lemma StartIs()
    ensures Start({3}) == S0
  {}

  /** With an empty queue and nothing listed the sweeps only note the time. */
  lemma NothingDue(s: Server, it: Iteration)
    requires s.queue == [] && it.idle == [] && it.overdue == []
    ensures AfterPass(s, it) == s
    ensures AfterSweeps(s, it) == SweepIdle(s, it.idleNow, [])
    ensures SweepIdle(s, it.idleNow, []) ==
              if it.idleNow - s.lastSweep < SWEEP_INTERVAL_S then s else s.(lastSweep := it.idleNow)
  {
    assert KillAll(SweepIdle(s, it.idleNow, []), []) == SweepIdle(s, it.idleNow, []);
  }

  lemma OneEvent(s: Server, e: Event)
    ensures HandleBatch(s, [e]) == HandleEvent(s, e)
  {
    hide HandleEvent;
    assert [e][1..] == [];
    assert HandleBatch(HandleEvent(s, e), []) == HandleEvent(s, e);
  }

  lemma FirstIteration()
    ensures AfterSweeps(S0, ACCEPTS) == AfterPass(S0, ACCEPTS) == S0 && Iterate(S0, ACCEPTS) == S1
  {
    NothingDue(S0, ACCEPTS);
    OneEvent(S0, ACCEPT);
    var a := Accepted(5, 7, true, 0);
    assert [a][1..] == [];
    assert AcceptAll(AcceptOne(S0, a), []) == AcceptOne(S0, a);
    assert HandleEvent(S0, ACCEPT) == AcceptOne(S0, a);
  }

  lemma SecondIteration()
    ensures AfterSweeps(S1, RECEIVES) == AfterPass(S1, RECEIVES) == S1 && Iterate(S1, RECEIVES) == S2
  {
    NothingDue(S1, RECEIVES);
    OneEvent(S1, REQUEST);
  }

  lemma ThirdIteration()
    ensures AfterPass(S2, STARTS) == S3.(lastSweep := 0)
    ensures AfterSweeps(S2, STARTS) == S3 && Iterate(S2, STARTS) == S3
  {
    var s := Serve(Pop(S2), 7, Call(StartsCgi(9), 0, 26));
    assert s == S3.(lastSweep := 0);
    assert RoundRobin(s, 1, STARTS.calls) == s;
    assert TimeOutAll(s.(lastSweep := 26), []) == S3 && KillAll(S3, []) == S3;
  }

  lemma FourthIteration()
    ensures AfterPass(S3, WAITS) == S3 && AfterSweeps(S3, WAITS) == S4 && Iterate(S3, WAITS) == S4
  {
    NothingDue(S3, WAITS);
  }

  // ---------------------------------------------------------------- what the run shows

  /** An iteration whose sweeps find nothing; `s1` is the state after its pass. */
  lemma BroughtQuietly(s: Server, it: Iteration, s1: Server)
    requires it.idle == [] && it.overdue == [] && it.clock == Clock(it.idleNow) && s1 == AfterPass(s, it)
    requires forall id :: id in s1.heap ==> !HasTimedOut(s1.heap[id], CONNECTION_TIMEOUT_S, it.idleNow)
    requires forall p :: p in s1.starts ==> it.cgiNow - s1.starts[p] < CGI_TIMEOUT_S
    ensures Brings(s, RoundOf(it), it)
  {
    hide RoundRobin, AfterPass;
    assert SweepIdle(s1, it.idleNow, []).starts == s1.starts;
    hide SweepIdle;
    forall fd ensures !Idle(s1, fd, it.clock) {
      NotIdle(s1, fd, it.idleNow);
    }
  }

  lemma NotIdle(s: Server, fd: Fd, now: int)
    requires forall id :: id in s.heap ==> !HasTimedOut(s.heap[id], CONNECTION_TIMEOUT_S, now)
    ensures !Idle(s, fd, Clock(now))
  {
    if fd in s.connections && s.connections[fd] in s.heap {
      var id := s.connections[fd];
      assert !HasTimedOut(s.heap[id], CONNECTION_TIMEOUT_S, now);
    }
  }

  lemma FirstStep()
    ensures Brings(S0, RoundOf(ACCEPTS), ACCEPTS) && Reported(AfterSweeps(S0, ACCEPTS), ACCEPTS.events)
  {
    FirstIteration();
    BroughtQuietly(S0, ACCEPTS, S0);
  }

  lemma SecondStep()
    ensures Brings(S1, RoundOf(RECEIVES), RECEIVES) && Reported(AfterSweeps(S1, RECEIVES), RECEIVES.events)
  {
    SecondIteration();
    BroughtQuietly(S1, RECEIVES, S1);
  }

  lemma ThirdStep()
    ensures Brings(S2, RoundOf(STARTS), STARTS) && Reported(AfterSweeps(S2, STARTS), STARTS.events)
  {
    ThirdIteration();
    hide RoundRobin, AfterPass, AfterSweeps;
    BroughtQuietly(S2, STARTS, S3.(lastSweep := 0));
  }

  lemma FourthStep()
    ensures Brings(S3, RoundOf(WAITS), WAITS) && Reported(AfterSweeps(S3, WAITS), WAITS.events)
  {
    FourthIteration();
    BroughtQuietly(S3, WAITS, S3);
  }

  /** The idle sweep finds the connection that waits for its CGI, before the CGI sweep gets to it. */
  lemma LastStep()
    ensures Brings(S4, RoundOf(LATE), LATE) && Reported(AfterSweeps(S4, LATE), LATE.events)
    ensures !SweepSpares(S4, LATE)
  {
    LastPass();
    IdleSweepStarts();
    OnlyClientIdle();
    hide RoundRobin, SweepIdle, AfterPass, AfterSweeps, Idle, Spared;
    assert 5 in LATE.idle && LATE.overdue == [9];
    assert Ascending(LATE.idle) && Ascending(LATE.overdue);
  }

  lemma LastPass()
    ensures AfterPass(S4, LATE) == S4
  {}

  lemma OnlyClientIdle()
    ensures forall fd :: Idle(S4, fd, Clock(61)) <==> fd == 5
    ensures !Spared(S4, 5)
  {}

  lemma IdleSweepStarts()
    ensures SweepIdle(S4, 61, [5]).starts == map[9 := 26]
  {
    var s1 := S4.(lastSweep := 61);
    assert TimeOutAll(TimeOut(s1, 5), []) == TimeOut(s1, 5);
    assert TimeOut(s1, 5).starts == map[9 := 26];
  }

  /** The states in which the iterations begin. */
  predicate Path(states: seq<Server>, its: seq<Iteration>) {
    |states| == |its| && forall i :: 0 <= i < |its| - 1 ==> Iterate(states[i], its[i]) == states[i + 1]
  }

  lemma {:induction false} AlongPath(states: seq<Server>, rounds: seq<Round>, its: seq<Iteration>)
    requires its != [] && |rounds| == |its| && Path(states, its)
    requires forall i :: 0 <= i < |its| ==> Brings(states[i], rounds[i], its[i])
    requires forall i :: 0 <= i < |its| ==> Reported(AfterSweeps(states[i], its[i]), its[i].events)
    requires !SweepSpares(states[|its| - 1], its[|its| - 1])
    ensures AllBring(states[0], rounds, its) && EpollKept(states[0], its) && !DeadlineKept(states[0], its)
    decreases |its|
  {
    hide Brings, Reported, SweepSpares, Iterate, AfterSweeps, ExactPipes;
    if |its| > 1 {
      forall i | 0 <= i < |its| - 2 ensures Iterate(states[1..][i], its[1..][i]) == states[1..][i + 1] {
        assert Iterate(states[i + 1], its[i + 1]) == states[i + 2];
      }
      AlongPath(states[1..], rounds[1..], its[1..]);
      assert Iterate(states[0], its[0]) == states[1];
    }
  }

  const LATE_STATES := [S0, S1, S2, S3, S4]

  lemma LateIsLate()
    ensures AllBring(S0, LATE_ROUNDS, LATE_RUN) && EpollKept(S0, LATE_RUN) && !DeadlineKept(S0, LATE_RUN)
  {
    FirstStep();
    SecondStep();
    ThirdStep();
    FourthStep();
    LastStep();
    LatePath();
    hide Brings, Reported, SweepSpares, Iterate, AfterSweeps, AllBring, EpollKept, DeadlineKept, Path;
    AlongPath(LATE_STATES, LATE_ROUNDS, LATE_RUN);
  }

  lemma LatePath()
    ensures Path(LATE_STATES, LATE_RUN)
  {
    hide Iterate, AfterPass, AfterSweeps;
    FirstIteration();
    SecondIteration();
    ThirdIteration();
    FourthIteration();
  }

  lemma InTimeCons(round: Round, rounds: seq<Round>, t: int, d: int)
    requires round.cgiNow <= t + d && forall fd :: round.clock(fd) <= round.cgiNow
    requires forall n: nat :: Prompt(round.calls(n), t, d) && round.calls(n).registered <= round.cgiNow
    requires InTime(rounds, round.cgiNow, d)
    ensures InTime([round] + rounds, t, d)
  {
    hide Prompt;
    assert ([round] + rounds)[1..] == rounds;
  }

  /** No CGI sweep comes more than 26 seconds after the one before. */
  lemma LateInTime()
    ensures InTime(LATE_ROUNDS, 0, 26)
  {
    assert InTime([], 61, 26);
    InTimeCons(RoundOf(LATE), [], 35, 26);
    InTimeCons(RoundOf(WAITS), [RoundOf(LATE)] + [], 26, 26);
    var rounds := [RoundOf(WAITS)] + ([RoundOf(LATE)] + []);
    InTimeCons(RoundOf(STARTS), rounds, 0, 26);
    InTimeCons(RoundOf(RECEIVES), [RoundOf(STARTS)] + rounds, 0, 26);
    InTimeCons(RoundOf(ACCEPTS), [RoundOf(RECEIVES)] + ([RoundOf(STARTS)] + rounds), 0, 26);
    assert [RoundOf(ACCEPTS)] + ([RoundOf(RECEIVES)] + ([RoundOf(STARTS)] + rounds)) == LATE_ROUNDS;
  }

  // ---------------------------------------------------------------- exactly when the deadline is kept

  /** Rounds that are in time stay so under a wider bound. */
  lemma {:induction false} InTimeWider(rounds: seq<Round>, t: int, d: int, wider: int)
    requires InTime(rounds, t, d) && d <= wider
    ensures InTime(rounds, t, wider)
    decreases |rounds|
  {
    if rounds != [] {
      InTimeWider(rounds[1..], rounds[0].cgiNow, d, wider);
    }
  }

  /** The server may bring these iterations about, from its start, with events that epoll can report
      and no more than `d` seconds from one CGI sweep to the next. */
  ghost predicate RunsInTime(listeners: set<Fd>, rounds: seq<Round>, its: seq<Iteration>, t: int, d: int) {
    && |its| == |rounds| && AllBring(Start(listeners), rounds, its) && InTime(rounds, t, d)
    && EpollKept(Start(listeners), its)
  }

  /** The failing input, for every bound the deadline theorem does not admit. */
  lemma LateRun(d: int)
    requires CGI_TIMEOUT_S + 2 * d > CONNECTION_TIMEOUT_S
    ensures RunsInTime({3}, LATE_ROUNDS, LATE_RUN, 0, d) && AllPaced(Start({3}), LATE_RUN, 0, d)
    ensures SafeRun(Start({3}), LATE_RUN) && !DeadlineKept(Start({3}), LATE_RUN)
  {
    StartIs();
    StartInv({3});
    LateIsLate();
    LateInTime();
    InTimeWider(LATE_ROUNDS, 0, 26, d);
    hide Inv, EpollKept, AllBring, InTime, DeadlineKept, AllPaced;
    RoundsArePaced(S0, LATE_ROUNDS, LATE_RUN, 0, d);
    EpollIsSafe(S0, LATE_RUN);
  }

  /** The server keeps the CGI deadline ahead of the idle deadline in every run whose rounds take at
      most `d` seconds if and only if 10 + 2d <= 60. */
  lemma DeadlineIff(d: int)
    ensures (forall listeners, rounds, its, t :: RunsInTime(listeners, rounds, its, t, d) ==>
               DeadlineKept(Start(listeners), its))
            <==> 10 + 2 * d <= 60
  {
    hide RunsInTime, DeadlineKept;
    if CGI_TIMEOUT_S + 2 * d > CONNECTION_TIMEOUT_S {
      LateRun(d);
    } else {
      forall listeners, rounds, its, t | RunsInTime(listeners, rounds, its, t, d)
        ensures DeadlineKept(Start(listeners), its)
      {
        InTimeKeeps(listeners, rounds, its, t, d);
      }
    }
  }

  lemma InTimeKeeps(listeners: set<Fd>, rounds: seq<Round>, its: seq<Iteration>, t: int, d: int)
    requires RunsInTime(listeners, rounds, its, t, d) && CGI_TIMEOUT_S + 2 * d <= CONNECTION_TIMEOUT_S
    ensures DeadlineKept(Start(listeners), its)
  {
    hide Inv, EpollKept, AllBring, InTime, DeadlineKept, AllPaced;
    StartInv(listeners);
    EpollIsSafe(Start(listeners), its);
    RoundsArePaced(Start(listeners), rounds, its, t, d);
    DeadlineFromStart(listeners, its, t, d);
  }

  /** The same for all safe runs of the model, whatever else their sweeps list. */
  lemma PacedDeadlineIff(d: int)
    ensures (forall listeners, its, t :: SafeRun(Start(listeners), its) && AllPaced(Start(listeners), its, t, d) ==>
               DeadlineKept(Start(listeners), its))
            <==> 10 + 2 * d <= 60
  {
    hide SafeRun, AllPaced, DeadlineKept;
    if CGI_TIMEOUT_S + 2 * d > CONNECTION_TIMEOUT_S {
      LateRun(d);
    } else {
      forall listeners, its, t | SafeRun(Start(listeners), its) && AllPaced(Start(listeners), its, t, d)
        ensures DeadlineKept(Start(listeners), its)
      {
        DeadlineFromStart(listeners, its, t, d);
      }
    }
  }
}
