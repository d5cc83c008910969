/** What every interleaving of a command and its heartbeat keeps on the terminal. */
module ProgressProofs {
  import opened Wrappers
  import opened Progress

  // ---------------------------------------------------------------- both threads

  datatype Main = Created | Inside | Stopping | Exited

  /** The heartbeat thread: waiting for its interval, due and on its way to the lock, or ended. */
  datatype Thread = NotStarted | Waiting | Due | Ended

  datatype System = System(printer: Printer, main: Main, thread: Thread, clock: real)

  datatype Action =
    | Tick(now: real)
    | Enter
    | EmitIt(status: Status, message: string, columns: nat)
    | TrackIt(message: string)
    | Stop
    | TimesOut
    | RunsBeat(columns: nat)
    | SeesStop
    | Exit

  predicate InScope(m: Main) {
    m.Created? || m.Inside?
  }

  predicate Init(s: System) {
    && s.main.Created? && s.thread.NotStarted?
    && s.printer.log == [] && !s.printer.lineOpen && s.printer.active.None? && s.printer.phase == 0
    && s.printer.lastHeartbeat <= s.clock
  }

  /** One step of either thread; everything done under the lock is one step. The exit waits for the heartbeat. */
  predicate Next(s: System, a: Action, t: System) {
    match a
    case Tick(now) => now >= s.clock && t == s.(clock := now)
    case Enter => s.main.Created? && t == s.(main := Inside, thread := Waiting)
    case EmitIt(status, message, columns) =>
      !s.main.Stopping? && t == s.(printer := Emit(s.printer, status, message, s.clock, columns))
    case TrackIt(message) => !s.main.Stopping? && t == s.(printer := Track(s.printer, message, s.clock))
    case Stop => s.main.Inside? && t == s.(main := Stopping)
    case TimesOut => s.thread.Waiting? && InScope(s.main) && t == s.(thread := Due)
    case RunsBeat(columns) => s.thread.Due? && t == s.(thread := Waiting, printer := Beat(s.printer, s.clock, columns))
    case SeesStop => s.thread.Waiting? && !InScope(s.main) && t == s.(thread := Ended)
    case Exit => s.main.Stopping? && s.thread.Ended? && t == s.(main := Exited, printer := FinishLine(s.printer))
  }

  ghost predicate IsRun(states: seq<System>, actions: seq<Action>) {
    && |states| == |actions| + 1
    && Init(states[0])
    && forall i :: 0 <= i < |actions| ==> Next(states[i], actions[i], states[i + 1])
  }

  // ---------------------------------------------------------------- what is kept

  predicate IsBusy(w: Write) {
    w.Transient? || (w.Permanent? && w.status.Busy?)
  }

  predicate EndsOpen(log: seq<Write>) {
    log != [] && log[|log| - 1].Transient?
  }

  /** A permanent line never starts on an open transient one, and only such a line is ended. */
  ghost predicate LinesClosed(log: seq<Write>) {
    && (forall i :: 0 <= i < |log| && log[i].Permanent? ==> i == 0 || !log[i - 1].Transient?)
    && (forall i :: 0 <= i < |log| && log[i].LineEnd? ==> i > 0 && log[i - 1].Transient?)
  }

  /** Busy lines of one phase are at least an interval apart. */
  ghost predicate BusyApart(log: seq<Write>, interval: real) {
    forall i, j :: 0 <= i < j < |log| && IsBusy(log[i]) && IsBusy(log[j]) && log[i].phase == log[j].phase ==>
      log[j].at - log[i].at >= interval
  }

  /** Busy lines belong to phases begun so far; those of the current one are no later than the last heartbeat. */
  ghost predicate BusyKnown(p: Printer) {
    forall i :: 0 <= i < |p.log| && IsBusy(p.log[i]) ==>
      p.log[i].phase <= p.phase && (p.log[i].phase == p.phase ==> p.log[i].at <= p.lastHeartbeat)
  }

  ghost predicate PrinterInv(p: Printer) {
    && (p.lineOpen <==> EndsOpen(p.log))
    && (p.lineOpen ==> p.live)
    && LinesClosed(p.log) && BusyApart(p.log, p.interval) && BusyKnown(p)
    && (p.active.Some? ==> p.active.value.since <= p.lastHeartbeat)
    && (p.plain ==> p.log == [] && p.active.None?)
  }

  ghost predicate Inv(s: System) {
    && PrinterInv(s.printer)
    && (s.main.Created? <==> s.thread.NotStarted?)
    && (s.main.Exited? ==> s.thread.Ended?)
    && (s.thread.Ended? ==> !InScope(s.main))
  }

  /** Writing a line that is not busy keeps what busy lines promise. */
  lemma AppendOther(p: Printer, w: Write)
    requires BusyApart(p.log, p.interval) && BusyKnown(p) && LinesClosed(p.log) && !IsBusy(w)
    requires w.Permanent? ==> !EndsOpen(p.log)
    requires w.LineEnd? ==> EndsOpen(p.log)
    ensures var q := p.(log := p.log + [w]);
            BusyApart(q.log, q.interval) && BusyKnown(q) && LinesClosed(q.log)
  {
  }

  lemma FinishKeeps(p: Printer)
    requires PrinterInv(p)
    ensures PrinterInv(FinishLine(p)) && !FinishLine(p).lineOpen
  {
  }

  lemma BeganKeeps(p: Printer, message: string, now: real)
    requires PrinterInv(p) && !p.plain
    ensures PrinterInv(Began(p, message, now))
    ensures forall i :: 0 <= i < |p.log| && IsBusy(p.log[i]) ==> p.log[i].phase != Began(p, message, now).phase
  {
  }

  lemma WriteBusyKeeps(p: Printer, message: string, now: real, columns: nat)
    requires PrinterInv(p) && !p.plain && now == p.lastHeartbeat && (p.lineOpen ==> p.live)
    requires forall i :: 0 <= i < |p.log| && IsBusy(p.log[i]) && p.log[i].phase == p.phase ==>
               now - p.log[i].at >= p.interval
    ensures PrinterInv(WriteBusy(p, message, now, columns))
  {
  }

  lemma EmitKeeps(p: Printer, status: Status, message: string, now: real, columns: nat)
    requires PrinterInv(p)
    ensures PrinterInv(Emit(p, status, message, now, columns))
  {
    hide LinesClosed, BusyApart, BusyKnown, WriteBusy;
    if !p.plain {
      FinishKeeps(p);
      var q := FinishLine(p);
      if status.Busy? {
        BeganKeeps(q, message, now);
        WriteBusyKeeps(Began(q, message, now), message, now, columns);
      } else {
        var r := if status.Info? then q else q.(active := None);
        assert BusyKnown(r) by { SameLog(q, r); }
        AppendOther(r, Permanent(status, message, now, r.phase));
      }
    }
  }

  lemma SameLog(p: Printer, q: Printer)
    requires BusyKnown(p) && q.log == p.log && q.phase == p.phase && q.lastHeartbeat == p.lastHeartbeat
    ensures BusyKnown(q)
  {
  }

  /** A heartbeat line comes an interval after the phase began and after its last busy line, or not at all. */
  lemma BeatKeeps(p: Printer, now: real, columns: nat)
    requires PrinterInv(p) && p.interval >= 0.0
    ensures PrinterInv(Beat(p, now, columns))
    ensures Beat(p, now, columns) != p ==> p.active.Some? && now - p.active.value.since >= p.interval
  {
  }

  lemma StepKeeps(s: System, a: Action, t: System)
    requires Inv(s) && s.printer.interval >= 0.0 && Next(s, a, t)
    ensures Inv(t) && t.printer.interval == s.printer.interval
  {
    hide PrinterInv, Emit, Beat, FinishLine, Began;
    var p := s.printer;
    match a
    case EmitIt(status, message, columns) =>
      EmitKeeps(p, status, message, s.clock, columns);
      Frame(p, status, message, s.clock, columns);
    case TrackIt(message) =>
      if !p.plain {
        BeganKeeps(p, message, s.clock);
      }
      Frame(p, Busy, message, s.clock, 0);
    case RunsBeat(columns) =>
      BeatKeeps(p, s.clock, columns);
      Frame(p, Busy, "", s.clock, columns);
    case Exit => FinishKeeps(p);
      Frame(p, Busy, "", s.clock, 0);
    case _ =>
  }

  lemma Frame(p: Printer, status: Status, message: string, now: real, columns: nat)
    ensures Emit(p, status, message, now, columns).interval == p.interval
    ensures Began(p, message, now).interval == p.interval
    ensures Beat(p, now, columns).interval == p.interval
    ensures FinishLine(p).interval == p.interval
  {
  }

  lemma InitKeeps(s: System)
    requires Init(s)
    ensures Inv(s)
  {
  }

  lemma {:induction false} RunKeeps(states: seq<System>, actions: seq<Action>, n: nat)
    requires IsRun(states, actions) && states[0].printer.interval >= 0.0 && n < |states|
    ensures Inv(states[n]) && states[n].printer.interval == states[0].printer.interval
  {
    hide Inv, Next, Init;
    if n == 0 {
      InitKeeps(states[0]);
    } else {
      RunKeeps(states, actions, n - 1);
      StepKeeps(states[n - 1], actions[n - 1], states[n]);
    }
  }

  /**
    At any point of any run: transient lines are closed before permanent ones, busy lines of one phase
    are an interval apart, plain output has no progress at all, and the exit leaves nothing open.
   */
  lemma HeartbeatDiscipline(states: seq<System>, actions: seq<Action>, n: nat)
    requires IsRun(states, actions) && states[0].printer.interval >= 0.0 && n < |states|
    ensures var p := states[n].printer;
            && LinesClosed(p.log) && BusyApart(p.log, states[0].printer.interval)
            && (p.plain ==> p.log == [])
            && (n > 0 && actions[n - 1].Exit? ==> !EndsOpen(p.log))
  {
    RunKeeps(states, actions, n);
    hide LinesClosed, BusyApart, EndsOpen;
    if n > 0 && actions[n - 1].Exit? {
      RunKeeps(states, actions, n - 1);
      assert Next(states[n - 1], actions[n - 1], states[n]);
      FinishKeeps(states[n - 1].printer);
    }
  }

  /** Once the scope was left, the heartbeat writes nothing any more: only the command's own reports still can. */
  lemma {:induction false} SilentAfterExit(states: seq<System>, actions: seq<Action>, m: nat, n: nat)
    requires IsRun(states, actions) && states[0].printer.interval >= 0.0
    requires m <= n < |states| && states[m].main.Exited?
    ensures states[n].main.Exited?
    ensures n < |actions| && states[n + 1].printer != states[n].printer ==> actions[n].EmitIt? || actions[n].TrackIt?
    decreases n
  {
    hide Emit, Beat, Track, FinishLine;
    if m < n {
      SilentAfterExit(states, actions, m, n - 1);
      assert Next(states[n - 1], actions[n - 1], states[n]);
    }
    RunKeeps(states, actions, n);
    if n < |actions| {
      assert Next(states[n], actions[n], states[n + 1]);
    }
  }

  function Room(s: System): nat {
    match s.thread
    case NotStarted => 2
    case Due => 2
    case Waiting => 1
    case Ended => 0
  }

  /** Leaving the scope never hangs: until the heartbeat has ended, its own step is possible and brings that closer. */
  lemma ExitComes(s: System) returns (a: Action, t: System)
    requires Inv(s) && s.main.Stopping?
    ensures Next(s, a, t) && (t.main.Exited? || (t.main.Stopping? && Room(t) < Room(s)))
    ensures s.thread.Waiting? ==> a == SeesStop
  {
    match s.thread
    case Due =>
      a := RunsBeat(80);
      t := s.(thread := Waiting, printer := Beat(s.printer, s.clock, 80));
    case Waiting =>
      a := SeesStop;
      t := s.(thread := Ended);
    case Ended =>
      a := Exit;
      t := s.(main := Exited, printer := FinishLine(s.printer));
    case NotStarted =>
      assert false;
  }

  // ---------------------------------------------------------------- the width of live lines

  lemma {:induction false} OneLineShape(s: string)
    ensures |OneLine(s)| == |s| && forall i :: 0 <= i < |s| ==> OneLine(s)[i] != '\n'
  {
    if s != "" {
      OneLineShape(s[1..]);
    }
  }

  /** A live message takes one row: at most `max(12, columns - 10)` characters, and no line break. */
  lemma ClipFits(message: string, columns: nat)
    ensures |Clip(message, columns)| <= (if columns - 10 > 12 then columns - 10 else 12)
    ensures forall i :: 0 <= i < |Clip(message, columns)| ==> Clip(message, columns)[i] != '\n'
    ensures |message| <= RowWidth(columns) ==> Clip(message, columns) == OneLine(message)
  {
    hide OneLine;
    OneLineShape(message);
  }

  // ---------------------------------------------------------------- phases

  /** A final status ends the phase: the heartbeat is silent until another one begins. A note ends none. */
  lemma FinalStatusEndsPhase(
      p: Printer, status: Status, message: string, now: real, columns: nat, later: real, width: nat)
    requires !p.plain && !status.Busy?
    ensures var q := Emit(p, status, message, now, columns);
            if status.Info? then q.active == p.active && q.lastHeartbeat == p.lastHeartbeat
            else Beat(q, later, width) == q
  {
  }

  /** Tracked work is silent, and stays so for an interval. */
  lemma TrackedQuietly(p: Printer, message: string, now: real, later: real, columns: nat)
    requires !p.plain
    ensures var q := Track(p, message, now);
            q.log == p.log && (Beat(q, later, columns) == q <==> later - now < p.interval)
  {
  }
}
