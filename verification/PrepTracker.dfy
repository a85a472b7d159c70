/**
 Which log files still hold prepared sections that have not been committed and flushed. Prepares and completions are
 counted under two separate locks, so completions may come in between the steps of the search for the oldest log.
 */
module PrepTracker {

  datatype LogCnt = LogCnt(log: nat, cnt: nat)

  /** Where the search is: not running, before looking at the first log, or about to erase it. */
  datatype Pc = Idle | Looking | Erasing

  /** The two containers, the program counter of the search, and all prepares and completions so far. */
  datatype State = State(
    logs: seq<LogCnt>, completed: map<nat, nat>, pc: Pc, prepared: multiset<nat>, flushed: multiset<nat>)

  /* ---------- the sorted vector ---------- */

  ghost predicate Sorted(logs: seq<LogCnt>) {
    forall i, j :: 0 <= i < j < |logs| ==> logs[i].log < logs[j].log
  }

  function CountOf(logs: seq<LogCnt>, log: nat): nat {
    if logs == [] then 0 else if logs[0].log == log then logs[0].cnt else CountOf(logs[1..], log)
  }

  function InsertLog(logs: seq<LogCnt>, log: nat): seq<LogCnt> {
    if logs == [] || log < logs[0].log then [LogCnt(log, 1)] + logs
    else if logs[0].log == log then [LogCnt(log, logs[0].cnt + 1)] + logs[1..]
    else [logs[0]] + InsertLog(logs[1..], log)
  }

  lemma {:induction false} InsertLogBelow(logs: seq<LogCnt>, log: nat, bound: nat)
    requires Sorted(logs) && bound < log && (forall i :: 0 <= i < |logs| ==> bound < logs[i].log)
    ensures Sorted(InsertLog(logs, log)) && forall i :: 0 <= i < |InsertLog(logs, log)| ==> bound < InsertLog(logs, log)[i].log
  {
    if logs != [] && logs[0].log < log {
      InsertLogBelow(logs[1..], log, logs[0].log);
    }
  }

  lemma InsertLogSorted(logs: seq<LogCnt>, log: nat)
    requires Sorted(logs)
    ensures Sorted(InsertLog(logs, log))
  {
    if logs != [] && logs[0].log < log {
      InsertLogBelow(logs[1..], log, logs[0].log);
    }
  }

  lemma {:induction false} AbsentCount(logs: seq<LogCnt>, log: nat)
    requires forall i :: 0 <= i < |logs| ==> logs[i].log != log
    ensures CountOf(logs, log) == 0
  {
    if logs != [] {
      AbsentCount(logs[1..], log);
    }
  }

  lemma {:induction false} InsertLogCounts(logs: seq<LogCnt>, log: nat, other: nat)
    requires Sorted(logs)
    ensures CountOf(InsertLog(logs, log), other) == CountOf(logs, other) + if other == log then 1 else 0
  {
    if logs == [] || log < logs[0].log {
      assert InsertLog(logs, log)[1..] == logs;
      if other == log {
        AbsentCount(logs, log);
      }
    } else if logs[0].log == log {
      assert InsertLog(logs, log)[1..] == logs[1..];
    } else {
      assert InsertLog(logs, log)[1..] == InsertLog(logs[1..], log);
      InsertLogCounts(logs[1..], log, other);
    }
  }

  lemma {:induction false} InsertLogAt(logs: seq<LogCnt>, log: nat, n: nat)
    requires Sorted(logs) && n <= |logs| && (n < |logs| ==> log < logs[n].log) && (n > 0 ==> logs[n - 1].log < log)
    ensures InsertLog(logs, log) == logs[..n] + [LogCnt(log, 1)] + logs[n..]
  {
    if n > 0 {
      if n < |logs| {
        assert logs[1..][n - 1] == logs[n];
      }
      if n > 1 {
        assert logs[1..][n - 2] == logs[n - 1] && logs[0].log < logs[n - 1].log;
      }
      InsertLogAt(logs[1..], log, n - 1);
      assert logs[..n] == [logs[0]] + logs[1..][..n - 1] && logs[1..][n - 1..] == logs[n..];
    } else {
      assert logs[..0] + [LogCnt(log, 1)] + logs[0..] == [LogCnt(log, 1)] + logs;
    }
  }

  lemma {:induction false} InsertLogHit(logs: seq<LogCnt>, log: nat, n: nat)
    requires Sorted(logs) && n < |logs| && logs[n].log == log
    ensures InsertLog(logs, log) == logs[n := LogCnt(log, logs[n].cnt + 1)]
  {
    if n > 0 {
      assert logs[1..][n - 1] == logs[n] && logs[0].log < logs[n].log;
      InsertLogHit(logs[1..], log, n - 1);
      assert logs[n := LogCnt(log, logs[n].cnt + 1)] == [logs[0]] + logs[1..][n - 1 := LogCnt(log, logs[n].cnt + 1)];
    }
  }

  /** Counts one more prepared section, searching from the newest log. */
  method MarkLogAsContainingPrepSection(logs: seq<LogCnt>, log: nat) returns (logs': seq<LogCnt>)
    requires Sorted(logs) && log != 0
    ensures logs' == InsertLog(logs, log)
  {
    var n := |logs|;
    while n > 0 && logs[n - 1].log >= log
      invariant 0 <= n <= |logs| && (n < |logs| ==> log < logs[n].log)
    {
      if logs[n - 1].log == log {
        InsertLogHit(logs, log, n - 1);
        return logs[n - 1 := LogCnt(log, logs[n - 1].cnt + 1)];
      }
      n := n - 1;
    }
    InsertLogAt(logs, log, n);
    logs' := logs[..n] + [LogCnt(log, 1)] + logs[n..];
  }

  function CompletedOf(completed: map<nat, nat>, log: nat): nat {
    if log in completed then completed[log] else 0
  }

  /** Counts one more completed section. */
  method MarkLogAsHavingPrepSectionFlushed(completed: map<nat, nat>, log: nat) returns (completed': map<nat, nat>)
    requires log != 0
    ensures forall other :: CompletedOf(completed', other) == CompletedOf(completed, other) + if other == log then 1 else 0
    ensures completed'.Keys == completed.Keys + {log}
  {
    if log !in completed {
      completed' := completed[log := 1];
    } else {
      completed' := completed[log := completed[log] + 1];
    }
  }

  /* ---------- the protocol ---------- */

  datatype Event =
    | Prepare(log: nat)
    | Complete(log: nat)
    | Begin
    | Check
    | Erase

  /** The lock on the vector is held while a search runs; a completion follows its prepare. */
  predicate Enabled(s: State, ev: Event) {
    match ev
    case Prepare(log) => s.pc == Idle && log != 0
    case Complete(log) => s.flushed[log] < s.prepared[log]
    case Begin => s.pc == Idle
    case Check => s.pc == Looking
    case Erase => s.pc == Erasing && s.logs != []
  }

  /** The first log still has outstanding sections, as far as the counters say. */
  predicate Outstanding(s: State)
    requires s.logs != []
  {
    CompletedOf(s.completed, s.logs[0].log) < s.logs[0].cnt
  }

  function Next(s: State, ev: Event): State
    requires Enabled(s, ev)
  {
    match ev
    case Prepare(log) => s.(logs := InsertLog(s.logs, log), prepared := s.prepared + multiset{log})
    case Complete(log) => s.(completed := s.completed[log := CompletedOf(s.completed, log) + 1], flushed := s.flushed + multiset{log})
    case Begin => s.(pc := Looking)
    case Check =>
      if s.logs == [] || Outstanding(s) then s.(pc := Idle)
      else s.(pc := Erasing, completed := s.completed - {s.logs[0].log})
    case Erase => s.(logs := s.logs[1..], pc := Looking)
  }

  /** What the search returns when `Check` ends it. */
  function Answer(s: State): nat {
    if s.logs == [] then 0 else s.logs[0].log
  }

  /** The counters of a log agree with what happened; the log about to be erased has nothing outstanding. */
  ghost predicate Balanced(s: State, log: nat) {
    && s.flushed[log] <= s.prepared[log]
    && CompletedOf(s.completed, log) <= CountOf(s.logs, log)
    && (if s.pc == Erasing && s.logs != [] && s.logs[0].log == log
        then s.prepared[log] == s.flushed[log] && CompletedOf(s.completed, log) == 0
        else s.prepared[log] - s.flushed[log] == CountOf(s.logs, log) - CompletedOf(s.completed, log))
  }

  ghost predicate Inv(s: State) {
    && Sorted(s.logs) && (forall i :: 0 <= i < |s.logs| ==> s.logs[i].log != 0 && s.logs[i].cnt > 0)
    && (s.pc == Erasing ==> s.logs != [])
    && (forall log {:trigger Balanced(s, log)} :: Balanced(s, log))
  }

  lemma {:induction false} InsertLogPositive(logs: seq<LogCnt>, log: nat)
    requires log != 0 && forall i :: 0 <= i < |logs| ==> logs[i].log != 0 && logs[i].cnt > 0
    ensures forall i :: 0 <= i < |InsertLog(logs, log)| ==> InsertLog(logs, log)[i].log != 0 && InsertLog(logs, log)[i].cnt > 0
  {
    if logs != [] && logs[0].log < log {
      InsertLogPositive(logs[1..], log);
    }
  }

  lemma PrepareInv(s: State, log: nat, s': State)
    requires Inv(s) && Enabled(s, Prepare(log)) && s' == Next(s, Prepare(log))
    ensures Inv(s')
  {
    InsertLogSorted(s.logs, log);
    InsertLogPositive(s.logs, log);
    forall other ensures Balanced(s', other) {
      assert Balanced(s, other);
      InsertLogCounts(s.logs, log, other);
    }
  }

  lemma CompleteInv(s: State, log: nat, s': State)
    requires Inv(s) && Enabled(s, Complete(log)) && s' == Next(s, Complete(log))
    ensures Inv(s')
  {
    forall other ensures Balanced(s', other) {
      assert Balanced(s, other);
    }
  }

  lemma CheckInv(s: State, s': State)
    requires Inv(s) && Enabled(s, Check) && s' == Next(s, Check)
    ensures Inv(s')
  {
    forall other ensures Balanced(s', other) {
      assert Balanced(s, other);
    }
  }

  lemma {:induction false} TailCounts(logs: seq<LogCnt>, other: nat)
    requires Sorted(logs) && logs != []
    ensures CountOf(logs[1..], other) == if other == logs[0].log then 0 else CountOf(logs, other)
  {
    if other == logs[0].log {
      AbsentCount(logs[1..], other);
    }
  }

  lemma EraseInv(s: State, s': State)
    requires Inv(s) && Enabled(s, Erase) && s' == Next(s, Erase)
    ensures Inv(s')
  {
    forall other ensures Balanced(s', other) {
      assert Balanced(s, other);
      TailCounts(s.logs, other);
    }
  }

  lemma BeginInv(s: State, s': State)
    requires Inv(s) && Enabled(s, Begin) && s' == Next(s, Begin)
    ensures Inv(s')
  {
    forall other ensures Balanced(s', other) {
      assert Balanced(s, other);
    }
  }

  /** Every step of every thread keeps the counters in balance. */
  lemma NextInv(s: State, ev: Event)
    requires Inv(s) && Enabled(s, ev)
    ensures Inv(Next(s, ev))
  {
    match ev
    case Prepare(log) => PrepareInv(s, log, Next(s, ev));
    case Complete(log) => CompleteInv(s, log, Next(s, ev));
    case Begin => BeginInv(s, Next(s, ev));
    case Check => CheckInv(s, Next(s, ev));
    case Erase => EraseInv(s, Next(s, ev));
  }

  /** Some section of the log has been prepared but not completed. */
  predicate Pending(s: State, log: nat) {
    s.flushed[log] < s.prepared[log]
  }

  lemma {:induction false} PendingIsListed(logs: seq<LogCnt>, log: nat)
    requires CountOf(logs, log) > 0
    ensures exists i :: 0 <= i < |logs| && logs[i].log == log
  {
    if logs[0].log == log {
      assert logs[0].log == log;
    } else {
      PendingIsListed(logs[1..], log);
      var i :| 0 <= i < |logs[1..]| && logs[1..][i].log == log;
      assert logs[i + 1].log == log;
    }
  }

  /** When the search ends it names the oldest log with outstanding sections at that moment, or 0 when there is none,
      whatever completions came in between its steps. */
  lemma AnswerIsLeast(s: State, log: nat)
    requires Inv(s) && s.pc == Looking && (s.logs == [] || Outstanding(s))
    ensures s.logs == [] ==> !Pending(s, log) && Answer(s) == 0
    ensures s.logs != [] ==> Answer(s) != 0 && Pending(s, Answer(s)) && (Pending(s, log) ==> Answer(s) <= log)
  {
    assert Balanced(s, log);
    if s.logs != [] {
      assert Balanced(s, Answer(s));
      if Pending(s, log) {
        PendingIsListed(s.logs, log);
      }
    }
  }

  /** A log that is erased has nothing outstanding, so erasing loses nothing. */
  lemma ErasedIsDone(s: State)
    requires Inv(s) && Enabled(s, Erase)
    ensures !Pending(s, s.logs[0].log)
  {
    assert Balanced(s, s.logs[0].log);
  }

  /* ---------- whole runs ---------- */

  ghost predicate CanRun(s: State, evs: seq<Event>)
    decreases |evs|
  {
    evs == [] || (Enabled(s, evs[0]) && CanRun(Next(s, evs[0]), evs[1..]))
  }

  ghost function After(s: State, evs: seq<Event>): State
    requires CanRun(s, evs)
    decreases |evs|
  {
    if evs == [] then s else After(Next(s, evs[0]), evs[1..])
  }

  lemma {:induction false} RunInv(s: State, evs: seq<Event>)
    requires Inv(s) && CanRun(s, evs)
    ensures Inv(After(s, evs))
    decreases |evs|
  {
    if evs != [] {
      NextInv(s, evs[0]);
      RunInv(Next(s, evs[0]), evs[1..]);
    }
  }

  /** In every run of every interleaving from the empty tracker, a search that ends names the oldest outstanding log. */
  lemma EverySearchIsRight(evs: seq<Event>, log: nat)
    requires CanRun(State([], map[], Idle, multiset{}, multiset{}), evs)
    ensures var s := After(State([], map[], Idle, multiset{}, multiset{}), evs);
            Sorted(s.logs) &&
            (s.pc == Looking && (s.logs == [] || Outstanding(s)) ==>
               (if s.logs == [] then !Pending(s, log) && Answer(s) == 0
                else Pending(s, Answer(s)) && (Pending(s, log) ==> Answer(s) <= log)))
  {
    var start := State([], map[], Idle, multiset{}, multiset{});
    forall other ensures Balanced(start, other) {
    }
    RunInv(start, evs);
    var s := After(start, evs);
    if s.pc == Looking && (s.logs == [] || Outstanding(s)) {
      AnswerIsLeast(s, log);
    }
  }

  /** The search without interference. */
  method FindMinLogContainingOutstandingPrep(s: State) returns (s': State, log: nat)
    requires Inv(s) && s.pc == Idle
    ensures Inv(s') && s'.pc == Idle && s'.prepared == s.prepared && s'.flushed == s.flushed
    ensures log == 0 ==> forall other :: !Pending(s, other)
    ensures log != 0 ==> Pending(s, log) && forall other :: Pending(s, other) ==> log <= other
  {
    s' := Next(s, Begin);
    NextInv(s, Begin);
    while s'.logs != [] && !Outstanding(s')
      invariant Inv(s') && s'.pc == Looking && s'.prepared == s.prepared && s'.flushed == s.flushed
      decreases |s'.logs|
    {
      NextInv(s', Check);
      s' := Next(s', Check);
      NextInv(s', Erase);
      s' := Next(s', Erase);
    }
    log := Answer(s');
    forall other ensures s'.logs == [] ==> !Pending(s, other) ensures s'.logs != [] && Pending(s, other) ==> log <= other {
      AnswerIsLeast(s', other);
    }
    AnswerIsLeast(s', 0);
    NextInv(s', Check);
    s' := Next(s', Check);
  }
}
