/** Progress lines of a running command: phases reported by the command, and a heartbeat beside it. */
module Progress {
  import opened Wrappers
  import opened Json

  datatype Status = Busy | Success | Warning | Failure | Info

  /** The running phase: what it does and since when. */
  datatype Active = Active(message: string, since: real)

  /**
    One write to the terminal. A transient line stays open and is overwritten in place; a permanent one
    ends itself; `LineEnd` ends the open one. Lines record when and in which phase they were written.
   */
  datatype Write =
    | Transient(message: string, at: real, phase: nat)
    | Permanent(status: Status, message: string, at: real, phase: nat)
    | LineEnd

  /** The printer's fields, what it wrote so far, and the number of phases it has begun. */
  datatype Printer = Printer(
    plain: bool, live: bool, interval: real,
    lineOpen: bool, lastHeartbeat: real, active: Option<Active>,
    log: seq<Write>, phase: nat)

  // ---------------------------------------------------------------- the operations on values

  function OneLine(s: string): string {
    if s == "" then "" else [if s[0] == '\n' then ' ' else s[0]] + OneLine(s[1..])
  }

  function RowWidth(columns: nat): nat {
    if columns < 22 then 12 else columns - 10
  }

  /** A message cut to one row of the terminal. */
  function Clip(message: string, columns: nat): string {
    var line := OneLine(message);
    if |line| <= RowWidth(columns) then line else line[..RowWidth(columns) - 3] + "..."
  }

  function FinishLine(p: Printer): Printer {
    if p.lineOpen then p.(log := p.log + [LineEnd], lineOpen := false) else p
  }

  function WriteBusy(p: Printer, message: string, now: real, columns: nat): Printer {
    if p.live then p.(log := p.log + [Transient(Clip(message, columns), now, p.phase)], lineOpen := true)
    else p.(log := p.log + [Permanent(Busy, message, now, p.phase)])
  }

  function Began(p: Printer, message: string, now: real): Printer {
    p.(active := Some(Active(message, now)), lastHeartbeat := now, phase := p.phase + 1)
  }

  function Emit(p: Printer, status: Status, message: string, now: real, columns: nat): Printer {
    if p.plain then p
    else
      var q := FinishLine(p);
      if status.Busy? then WriteBusy(Began(q, message, now), message, now, columns)
      else
        var r := if status.Info? then q else q.(active := None);
        r.(log := r.log + [Permanent(status, message, now, r.phase)])
  }

  function Track(p: Printer, message: string, now: real): Printer {
    if p.plain then p else Began(p, message, now)
  }

  function Elapsed(a: Active, now: real): string {
    var seconds := (now - a.since).Floor;
    a.message + " (" + NatText(if seconds < 0 then 0 else seconds) + "s elapsed)"
  }

  /** What the heartbeat does when it is due and has the lock. */
  function Beat(p: Printer, now: real, columns: nat): Printer {
    if p.active.None? || now - p.lastHeartbeat < p.interval then p
    else WriteBusy(p.(lastHeartbeat := now), Elapsed(p.active.value, now), now, columns)
  }

  // ---------------------------------------------------------------- the printer

  class ProgressPrinter {
    const plain: bool
    const live: bool
    const interval: real
    var lineOpen: bool
    var lastHeartbeat: real
    var active: Option<Active>
    var log: seq<Write>
    var phase: nat

    constructor (plain: bool, live: bool, interval: real)
      ensures View() == Printer(plain, live, interval, false, 0.0, None, [], 0)
    {
      this.plain, this.live, this.interval := plain, live, interval;
      lineOpen, lastHeartbeat, active, log, phase := false, 0.0, None, [], 0;
    }

    ghost function View(): Printer
      reads this
    {
      Printer(plain, live, interval, lineOpen, lastHeartbeat, active, log, phase)
    }

    method EndOpenLine()
      modifies this
      ensures View() == FinishLine(old(View()))
    {
      if lineOpen {
        log := log + [LineEnd];
        lineOpen := false;
      }
    }

    method PutBusy(message: string, now: real, columns: nat)
      modifies this
      ensures View() == WriteBusy(old(View()), message, now, columns)
    {
      if live {
        var width := RowWidth(columns);
        var line := OneLine(message);
        if |line| > width {
          line := line[..width - 3] + "...";
        }
        log := log + [Transient(line, now, phase)];
        lineOpen := true;
      } else {
        log := log + [Permanent(Busy, message, now, phase)];
      }
    }

    method Report(status: Status, message: string, now: real, columns: nat)
      modifies this
      ensures View() == Emit(old(View()), status, message, now, columns)
    {
      if plain { return; }
      EndOpenLine();
      if status.Busy? {
        active := Some(Active(message, now));
        lastHeartbeat := now;
        phase := phase + 1;
        PutBusy(message, now, columns);
      } else {
        if !status.Info? {
          active := None;
        }
        log := log + [Permanent(status, message, now, phase)];
      }
    }

    method TrackWork(message: string, now: real)
      modifies this
      ensures View() == Track(old(View()), message, now)
    {
      if plain { return; }
      active := Some(Active(message, now));
      lastHeartbeat := now;
      phase := phase + 1;
    }

    method Heartbeat(now: real, columns: nat)
      modifies this
      ensures View() == Beat(old(View()), now, columns)
    {
      if active.None? { return; }
      if now - lastHeartbeat < interval { return; }
      lastHeartbeat := now;
      PutBusy(Elapsed(active.value, now), now, columns);
    }
  }
}
