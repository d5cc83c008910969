/**
  `vbot devices pair`: start a pairing request or continue the stored one, poll until the request is
  decided, and store the Device token. The clock, the server's answers, Ctrl-C and the sign-in file
  are the environment, which may behave in any way its contracts allow.
 */
module DevicePairing {
  import opened Wrappers

  const PAIR_WAIT_SECONDS := 50.0
  const UNAVAILABLE_PAUSE := 30.0

  /** The answer to one poll: HTTP status, the body's `status` and `token`, the error code, Retry-After. */
  datatype Response = Response(
    status: int, result: Option<string>, token: Option<string>, errorCode: Option<string>, retryAfter: Option<real>)

  datatype PollReply = Unreachable | Interrupted | Answered(response: Response)

  datatype Pending = Pending(requestId: string, code: string, expiresAt: real, interval: real)

  datatype StatusReply = NoStatus | Status(mode: string, principal: Option<string>, device: bool)

  datatype StartReply = NoStart | Started(requestId: string, code: string, expiresIn: real, interval: real)

  /** What happens around the client, in order. `Saved` and `Dropped` are changes of the sign-in file. */
  datatype Event =
    | Polled(requestId: string, reply: PollReply)
    | ReadClock(time: real)
    | Slept(at: real, seconds: real, interrupted: bool)
    | AskedStatus(answer: StatusReply)
    | AskedStart(offer: StartReply)
    | SavedPending(pending: Pending, replaced: Option<Pending>, time: real)
    | Dropped(dropped: Option<Pending>)
    | SavedSignIn(token: string)

  datatype Outcome =
    | NothingSent | NoAnswer | AlreadySignedIn | NotNeeded | HostNeedsNone | PlainHttp
    | StartRefused | StoreError
    | SignedIn | NoToken | TokenNotStored | Denied | Expired | NotFinished | PollRefused | Stopped

  /** What an answer may come to; the sign-in file may fail to be written. */
  predicate DecidedBy(r: Response, outcome: Outcome) {
    && !Undecided(r)
    && (Approves(r) ==> if r.token.None? then outcome == NoToken else outcome == SignedIn || outcome == TokenNotStored)
    && (Verdict(r) == Some("denied") ==> outcome == Denied || outcome == StoreError)
    && (Verdict(r) == Some("expired") ==> outcome == Expired || outcome == StoreError)
    && (Verdict(r).None? ==> outcome == PollRefused || (outcome == StoreError && r.status == 409))
  }

  function Max(a: real, b: real): real { if a >= b then a else b }

  function Min(a: real, b: real): real { if a <= b then a else b }

  predicate InClass(c: char, extra: string) {
    '0' <= c <= '9' || 'A' <= c <= 'Z' || c in extra
  }

  /** `[0-9A-Z]{4}-[0-9A-Z]{4}` */
  predicate CodeForm(code: string) {
    |code| == 9 && code[4] == '-' && forall i :: 0 <= i < 9 && i != 4 ==> InClass(code[i], "")
  }

  /** `vbt_[A-Za-z0-9_-]{1,256}` */
  predicate TokenForm(token: string) {
    "vbt_" <= token && 5 <= |token| <= 260
    && forall i :: 4 <= i < |token| ==> InClass(token[i], "_-") || 'a' <= token[i] <= 'z'
  }

  function Verdict(r: Response): Option<string> {
    if r.status == 200 then r.result else None
  }

  predicate HasCode(r: Response) {
    r.errorCode.Some? && r.errorCode.value != ""
  }

  /** A coded refusal that waiting cannot help. */
  predicate Refusal(r: Response) {
    400 <= r.status < 500 && r.status != 429 && HasCode(r)
  }

  function RetryAfter(r: Response): real {
    if r.retryAfter.Some? then Max(1.0, r.retryAfter.value) else 0.0
  }

  /** How long to pause after an answer that leaves the request undecided. */
  function PauseAfter(pending: Pending, r: Response): real {
    if r.status == 429 then Max(pending.interval, RetryAfter(r))
    else if Verdict(r) != Some("pending") then
      var pause := Max(pending.interval, RetryAfter(r));
      if r.errorCode == Some("devices_unavailable") then Max(pause, UNAVAILABLE_PAUSE) else pause
    else pending.interval
  }

  /** How long to pause after a poll: after none of its answers is the request decided. */
  function PauseOf(pending: Pending, reply: PollReply): real {
    if reply.Answered? then PauseAfter(pending, reply.response) else pending.interval
  }

  predicate Approves(r: Response) {
    Verdict(r) == Some("approved")
  }

  /** An answer that leaves the request undecided: the client polls again. */
  predicate Undecided(r: Response) {
    !Approves(r) && Verdict(r) != Some("denied") && Verdict(r) != Some("expired") && !Refusal(r)
  }

  /** A pending request that a run continues instead of starting another one. */
  predicate Resumable(pending: Pending, now: real) {
    pending.expiresAt - now > 1.0 && CodeForm(pending.code)
  }

  /** The pause respects the server's poll interval and what it asks for, and is no longer than one of these. */
  lemma PauseRespected(pending: Pending, r: Response)
    ensures var pause := PauseAfter(pending, r);
            && pause >= pending.interval
            && (r.status == 429 || Verdict(r) != Some("pending") ==> pause >= RetryAfter(r))
            && (r.status != 429 && Verdict(r).None? && r.errorCode == Some("devices_unavailable") ==>
                  pause >= UNAVAILABLE_PAUSE)
            && (pause == pending.interval || pause == RetryAfter(r) || pause == UNAVAILABLE_PAUSE)
    ensures r.retryAfter.Some? ==> RetryAfter(r) >= 1.0 && RetryAfter(r) >= r.retryAfter.value
  {
  }

  // ---------------------------------------------------------------- what is safe

  /** A stored sign-in is the token of the approval answered just before, and only over https. */
  predicate SafeSignIn(https: bool, before: Option<Event>, token: string) {
    https && before.Some? && before.value.Polled? && before.value.reply.Answered?
    && Approves(before.value.reply.response) && before.value.reply.response.token == Some(token)
  }

  /** The stored request is forgotten only once denied, expired, refused with HTTP 409 and a code, or past its time. */
  predicate SafeDrop(before: Option<Event>, dropped: Option<Pending>) {
    before.Some?
    && match before.value
       case Polled(_, Answered(r)) =>
         Verdict(r) == Some("denied") || Verdict(r) == Some("expired") || (r.status == 409 && HasCode(r))
       case ReadClock(time) => dropped.Some? ==> time >= dropped.value.expiresAt
       case _ => false
  }

  /** No request that could still be continued is replaced by a second one. */
  predicate SafeStart(replaced: Option<Pending>, time: real) {
    replaced.Some? ==> !Resumable(replaced.value, time)
  }

  /** The event is allowed directly after `before`. */
  predicate Justified(https: bool, before: Option<Event>, event: Event) {
    match event
    case SavedSignIn(token) => SafeSignIn(https, before, token)
    case Dropped(dropped) => SafeDrop(before, dropped)
    case SavedPending(_, replaced, time) => SafeStart(replaced, time)
    case _ => true
  }

  function Last(log: seq<Event>): Option<Event> {
    if log == [] then None else Some(log[|log| - 1])
  }

  predicate Safe(https: bool, log: seq<Event>) {
    log == [] || (Safe(https, log[..|log| - 1]) && Justified(https, Last(log[..|log| - 1]), log[|log| - 1]))
  }

  /** The pending request the sign-in file holds after the changes of a log. */
  function Stored(log: seq<Event>): Option<Pending> {
    if log == [] then None
    else
      match log[|log| - 1]
      case SavedPending(request, _, _) => Some(request)
      case Dropped(_) => None
      case SavedSignIn(_) => None
      case _ => Stored(log[..|log| - 1])
  }

  lemma StoredNext(log: seq<Event>, event: Event)
    ensures Stored(log + [event])
         == match event
            case SavedPending(request, _, _) => Some(request)
            case Dropped(_) => None
            case SavedSignIn(_) => None
            case _ => Stored(log)
  {
    assert (log + [event])[..|log|] == log;
  }

  /** How many polls a log holds. */
  function Polls(log: seq<Event>): nat {
    if log == [] then 0 else Polls(log[..|log| - 1]) + if log[|log| - 1].Polled? then 1 else 0
  }

  /** Every event of a safe log is justified by the one before it. */
  lemma {:induction false} SafeEverywhere(https: bool, log: seq<Event>, i: nat)
    requires Safe(https, log) && i < |log|
    ensures Justified(https, Last(log[..i]), log[i])
  {
    if i < |log| - 1 {
      SafeEverywhere(https, log[..|log| - 1], i);
      assert log[..|log| - 1][..i] == log[..i];
    }
  }

  // ---------------------------------------------------------------- the environment

  class Environment {
    const https: bool
    var now: real
    var log: seq<Event>
    // The sign-in file's entry for this origin.
    var signIn: Option<string>
    var pending: Option<Pending>

    /**
      The log tells what the file holds. Requests are stored by `_start` alone, which keeps polls at
      least a second apart.
     */
    predicate Valid()
      reads this
    {
      && pending == Stored(log)
      && (pending.Some? ==> pending.value.interval >= 1.0)
    }

    constructor (https: bool)
      ensures Valid() && Safe(https, log) && this.https == https && log == []
    {
      this.https := https;
      now, log, signIn, pending := 0.0, [], None, None;
    }

    method Clock() returns (time: real)
      requires Valid()
      modifies this`now, this`log
      ensures Valid()
      ensures time == now >= old(now) && log == old(log) + [ReadClock(now)]
    {
      var passed: real := *;
      now := now + Max(0.0, passed);
      time := now;
      StoredNext(log, ReadClock(now));
      log := log + [ReadClock(now)];
    }

    /** Sleeping takes at least as long as asked; Ctrl-C may cut it short. */
    method Sleep(at: real, seconds: real) returns (interrupted: bool)
      requires Valid()
      modifies this`now, this`log
      ensures Valid()
      ensures log == old(log) + [Slept(at, seconds, interrupted)]
      ensures now >= old(now) && (!interrupted ==> now >= old(now) + seconds)
    {
      var passed: real := *;
      interrupted := *;
      now := now + if interrupted then Max(0.0, passed) else Max(Max(0.0, seconds), passed);
      StoredNext(log, Slept(at, seconds, interrupted));
      log := log + [Slept(at, seconds, interrupted)];
    }

    method Poll(request: Pending) returns (reply: PollReply)
      requires Valid()
      modifies this`now, this`log
      ensures Valid()
      ensures now >= old(now) && log == old(log) + [Polled(request.requestId, reply)]
    {
      var passed: real := *;
      now := now + Max(0.0, passed);
      reply := *;
      StoredNext(log, Polled(request.requestId, reply));
      log := log + [Polled(request.requestId, reply)];
    }

    method AskStatus() returns (reply: StatusReply)
      requires Valid()
      modifies this`now, this`log
      ensures Valid()
      ensures now >= old(now) && log == old(log) + [AskedStatus(reply)]
    {
      var passed: real := *;
      now := now + Max(0.0, passed);
      reply := *;
      StoredNext(log, AskedStatus(reply));
      log := log + [AskedStatus(reply)];
    }

    method AskStart() returns (reply: StartReply)
      requires Valid()
      modifies this`now, this`log
      ensures Valid()
      ensures now >= old(now) && log == old(log) + [AskedStart(reply)]
    {
      var passed: real := *;
      now := now + Max(0.0, passed);
      reply := *;
      StoredNext(log, AskedStart(reply));
      log := log + [AskedStart(reply)];
    }

    /** The file replaces an earlier sign-in together with its pairing; it may not be writable. */
    method SaveSignIn(token: string) returns (ok: bool)
      requires Valid()
      modifies this`signIn, this`pending, this`log
      ensures Valid()
      ensures ok ==> TokenForm(token) && signIn == Some(token) && pending == None
      ensures ok ==> log == old(log) + [SavedSignIn(token)]
      ensures !ok ==> signIn == old(signIn) && pending == old(pending) && log == old(log)
    {
      var writable: bool := *;
      ok := writable && TokenForm(token);
      if ok {
        StoredNext(log, SavedSignIn(token));
        signIn, pending, log := Some(token), None, log + [SavedSignIn(token)];
      }
    }

    method SavePending(request: Pending) returns (ok: bool)
      requires Valid() && request.interval >= 1.0
      modifies this`pending, this`log
      ensures Valid()
      ensures ok ==> pending == Some(request) && log == old(log) + [SavedPending(request, old(pending), now)]
      ensures !ok ==> pending == old(pending) && log == old(log)
    {
      ok := *;
      if ok {
        StoredNext(log, SavedPending(request, pending, now));
        log := log + [SavedPending(request, pending, now)];
        pending := Some(request);
      }
    }

    method DropPending() returns (ok: bool)
      requires Valid()
      modifies this`pending, this`log
      ensures Valid()
      ensures ok ==> pending == None && log == old(log) + [Dropped(old(pending))]
      ensures !ok ==> pending == old(pending) && log == old(log)
    {
      ok := *;
      if ok {
        StoredNext(log, Dropped(pending));
        log := log + [Dropped(pending)];
        pending := None;
      }
    }
  }

  // ---------------------------------------------------------------- the client

  /** What waiting may add to the log: polls of this request only, and no sleep past the deadline. */
  predicate WaitEvent(request: Pending, deadline: real, event: Event) {
    && (event.Polled? ==> event.requestId == request.requestId)
    && (event.Slept? ==> event.seconds >= 0.0 && (event.seconds > 0.0 ==> event.at + event.seconds <= deadline))
    && !event.SavedPending? && !event.AskedStatus? && !event.AskedStart?
  }

  /** `log` continues `before` by safe waiting with `polls` polls. */
  ghost predicate Waited(
      https: bool, request: Pending, deadline: real, before: seq<Event>, log: seq<Event>, polls: int) {
    && Safe(https, log) && before <= log
    && (forall i :: |before| <= i < |log| ==> WaitEvent(request, deadline, log[i]))
    && Polls(log) == Polls(before) + polls
  }

  lemma WaitedStart(https: bool, request: Pending, deadline: real, log: seq<Event>)
    requires Safe(https, log)
    ensures Waited(https, request, deadline, log, log, 0)
  {
  }

  lemma WaitedAppend(
      https: bool, request: Pending, deadline: real, before: seq<Event>, log: seq<Event>, polls: int, event: Event)
    requires Waited(https, request, deadline, before, log, polls)
    requires WaitEvent(request, deadline, event) && Justified(https, Last(log), event)
    ensures Waited(https, request, deadline, before, log + [event], polls + if event.Polled? then 1 else 0)
  {
  }

  /** `n` polls, at least `interval` apart, all before the deadline. */
  predicate PollsFit(n: int, interval: real, seconds: real) {
    n <= 0 || Span(n - 1, interval) < seconds
  }

  function Span(n: nat, interval: real): real {
    n as real * interval
  }

  lemma SpanNext(n: nat, interval: real)
    ensures Span(n + 1, interval) == Span(n, interval) + interval
    ensures Span(0, interval) == 0.0
  {
  }

  /** A round that began an interval after the round before, or past the deadline, adds at most one poll that fits. */
  lemma PollsStep(start: real, now: real, interval: real, deadline: real, polls: nat, polled: nat)
    requires PollsFit(polls, interval, deadline - start) && polled <= 1 && (polled == 1 ==> now < deadline)
    requires now >= start + Span(polls, interval) || now >= deadline
    ensures PollsFit(polls + polled, interval, deadline - start)
  {
  }

  function Ceil(x: real): int {
    -(-x).Floor
  }

  /** Such polls are at most as many as intervals fit into the wait, rounded up. */
  lemma PollsFitCeil(n: int, interval: real, seconds: real)
    requires PollsFit(n, interval, seconds) && interval > 0.0 && seconds >= 0.0
    ensures n <= Ceil(seconds / interval)
  {
    var ratio := seconds / interval;
    assert ratio * interval == seconds;
    assert (n - 1) as real >= ratio ==> (n - 1) as real * interval >= ratio * interval;
  }

  // ---------------------------------------------------------------- what a wait owes its request

  /** From `start` on, only `request` is polled, and no other request is started. */
  predicate Continues(request: Pending, log: seq<Event>, start: nat) {
    forall i :: start <= i < |log| ==>
      !log[i].SavedPending? && (log[i].Polled? ==> log[i].requestId == request.requestId)
  }

  /** A poll at `i`, not the wait's first: the clock went on by the pause the answer before it asked for. */
  predicate Spaced(request: Pending, log: seq<Event>, start: nat, i: nat)
    requires i < |log|
  {
    log[i].Polled? && i > start + 1 ==>
      && i >= start + 5
      && log[i - 4].Polled? && log[i - 3].ReadClock? && log[i - 1].ReadClock?
      && log[i - 1].time >= log[i - 3].time + PauseOf(request, log[i - 4].reply)
  }

  /**
    A wait that begins at `start` looks at the clock and polls at once if there is time left; between two
    polls it respects the pause.
   */
  predicate WaitsFor(request: Pending, deadline: real, log: seq<Event>, start: nat) {
    && start < |log| && log[start].ReadClock?
    && (log[start].time < Min(request.expiresAt, deadline) <==> start + 1 < |log| && log[start + 1].Polled?)
    && (forall i :: start < i < |log| ==> Spaced(request, log, start, i))
  }

  /** What one round of waiting adds: a look at the clock, and a poll if there is time left. */
  predicate Round(request: Pending, deadline: real, log: seq<Event>, start: nat) {
    && start < |log| && log[start].ReadClock?
    && (log[start].time < Min(request.expiresAt, deadline) <==> start + 1 < |log| && log[start + 1].Polled?)
    && (forall i :: start < i < |log| && i != start + 1 ==> !log[i].Polled?)
  }

  /** A round that left the request undecided ends with its pause, cut at the deadline. */
  predicate Paused(request: Pending, deadline: real, log: seq<Event>, start: nat, now: real) {
    && |log| == start + 4 && log[start + 1].Polled? && log[start + 2].ReadClock?
    && now >= Min(log[start + 2].time + PauseOf(request, log[start + 1].reply), deadline)
  }

  /** A wait that began at `start`, between two rounds. */
  predicate Between(request: Pending, deadline: real, log: seq<Event>, start: nat, now: real) {
    start == |log|
    || (start + 4 <= |log| && WaitsFor(request, deadline, log, start) && Paused(request, deadline, log, |log| - 4, now))
  }

  lemma NextRound(request: Pending, deadline: real, start: nat, log: seq<Event>, now: real, more: seq<Event>)
    requires start <= |log| && log <= more && Between(request, deadline, log, start, now)
    requires Round(request, deadline, more, |log|) && more[|log|].time >= now
    ensures WaitsFor(request, deadline, more, start)
  {
    hide PauseOf;
    forall i | start < i < |more| ensures Spaced(request, more, start, i) {
      if i < |log| {
        assert Spaced(request, log, start, i);
      }
    }
  }

  /** The outcome of a wait is what its last events say. */
  predicate OutcomeOf(request: Pending, deadline: real, log: seq<Event>, outcome: Outcome) {
    && log != []
    && match log[|log| - 1]
       case ReadClock(time) =>
         if time >= request.expiresAt then outcome == StoreError else time >= deadline && outcome == NotFinished
       case Slept(_, _, interrupted) => interrupted && outcome == Stopped
       case SavedSignIn(_) => outcome == SignedIn
       case Polled(_, Interrupted) => outcome == Stopped
       case Polled(_, Answered(r)) => DecidedBy(r, outcome) && outcome !in {SignedIn, Denied, Expired}
       case Dropped(_) => |log| >= 2 && DroppedFor(request, log[|log| - 2], outcome)
       case _ => false
  }

  predicate DroppedFor(request: Pending, before: Event, outcome: Outcome) {
    match before
    case ReadClock(time) => time >= request.expiresAt && outcome == Expired
    case Polled(_, Answered(r)) => DecidedBy(r, outcome) && outcome in {Denied, Expired, PollRefused}
    case _ => false
  }

  // ---------------------------------------------------------------- what a run owes

  /** What the status answer settles without any pairing. */
  function Settled(https: bool, status: StatusReply): Option<Outcome> {
    if status.NoStatus? then Some(NoAnswer)
    else if status.principal == Some("device") && status.device then Some(AlreadySignedIn)
    else if status.mode != "authenticated" then Some(NotNeeded)
    else if status.principal == Some("host") then Some(HostNeedsNone)
    else if !https then Some(PlainHttp)
    else None
  }

  /** The request at hand is waited for: until its end, without a terminal for 50 seconds at most. */
  predicate WaitsInRun(request: Pending, interactive: bool, log: seq<Event>, start: nat, outcome: Outcome) {
    && Continues(request, log, start)
    && if interactive then
         WaitsFor(request, request.expiresAt, log, start) && OutcomeOf(request, request.expiresAt, log, outcome)
       else
         && start < |log| && log[start].ReadClock?
         && var deadline := Min(request.expiresAt, log[start].time + PAIR_WAIT_SECONDS);
            WaitsFor(request, deadline, log, start + 1) && OutcomeOf(request, deadline, log, outcome)
  }

  /** An offer the client accepts. */
  predicate Startable(offer: StartReply) {
    offer.Started? && offer.requestId != "" && CodeForm(offer.code)
  }

  /** A request is asked for; the one offered is stored and waited for, unless it cannot be. */
  predicate StartsOne(interactive: bool, log: seq<Event>, start: nat, outcome: Outcome) {
    && start < |log| && log[start].AskedStart?
    && var offer := log[start].offer;
       if !Startable(offer) then |log| == start + 1 && outcome == StartRefused
       else
         && start + 1 < |log| && log[start + 1].ReadClock?
         && if start + 2 == |log| then outcome == StoreError
            else
              && log[start + 2].SavedPending?
              && log[start + 2].pending == Offered(offer, log[start + 1].time)
              && WaitsInRun(log[start + 2].pending, interactive, log, start + 3, outcome)
  }

  /** The request an accepted offer comes to. */
  function Offered(offer: StartReply, now: real): Pending
    requires offer.Started?
  {
    Pending(offer.requestId, offer.code, now + offer.expiresIn, Max(1.0, offer.interval))
  }

  /** The stored request is continued if a first look at the clock finds time left, else another one is started. */
  predicate Pairs(pending: Option<Pending>, interactive: bool, log: seq<Event>, start: nat, outcome: Outcome) {
    if pending.None? then StartsOne(interactive, log, start, outcome)
    else
      && start < |log| && log[start].ReadClock?
      && if Resumable(pending.value, log[start].time) then
           WaitsInRun(pending.value, interactive, log, start + 1, outcome)
         else StartsOne(interactive, log, start + 1, outcome)
  }

  /** How a run is called: with a terminal or not, and whether the server is on this computer. */
  datatype Call = Call(interactive: bool, loopback: bool)

  /** All a run does from `start` on, given the request stored then. */
  predicate RunDoes(
      https: bool, call: Call, pending: Option<Pending>, log: seq<Event>, start: nat, outcome: Outcome) {
    if !https && !call.loopback then |log| == start && outcome == NothingSent
    else
      && start < |log| && log[start].AskedStatus?
      && var settled := Settled(https, log[start].answer);
         if settled.Some? then |log| == start + 1 && outcome == settled.value
         else Pairs(pending, call.interactive, log, start + 1, outcome)
  }

  /** A run from `start` to `end` that did what it owes the request stored at its start. */
  predicate RunSegment(https: bool, call: Call, log: seq<Event>, start: nat, end: nat, outcome: Outcome) {
    start <= end <= |log| && RunDoes(https, call, Stored(log[..start]), log[..end], start, outcome)
  }

  /** Runs between consecutive marks, each of which did what it owes. */
  predicate AllRuns(https: bool, calls: seq<Call>, log: seq<Event>, marks: seq<nat>, outcomes: seq<Outcome>) {
    && |marks| == |outcomes| + 1 && |outcomes| <= |calls|
    && forall k :: 0 <= k < |outcomes| ==> RunSegment(https, calls[k], log, marks[k], marks[k + 1], outcomes[k])
  }

  lemma SegmentKept(
      https: bool, call: Call, log: seq<Event>, more: seq<Event>, start: nat, end: nat, outcome: Outcome)
    requires RunSegment(https, call, log, start, end, outcome) && log <= more
    ensures RunSegment(https, call, more, start, end, outcome)
  {
    hide RunDoes, Stored;
    assert more[..start] == log[..start] && more[..end] == log[..end];
  }

  lemma LastSegment(https: bool, call: Call, log: seq<Event>, more: seq<Event>, outcome: Outcome)
    requires log <= more && RunDoes(https, call, Stored(log), more, |log|, outcome)
    ensures RunSegment(https, call, more, |log|, |more|, outcome)
  {
    hide RunDoes, Stored;
    assert more[..|log|] == log && more[..|more|] == more;
  }

  lemma OneMoreRun(https: bool, calls: seq<Call>, log: seq<Event>, more: seq<Event>, marks: seq<nat>,
                   outcomes: seq<Outcome>, outcome: Outcome)
    requires AllRuns(https, calls, log, marks, outcomes) && marks[|outcomes|] == |log| && log <= more
    requires |outcomes| < |calls| && RunDoes(https, calls[|outcomes|], Stored(log), more, |log|, outcome)
    ensures AllRuns(https, calls, more, marks + [|more|], outcomes + [outcome])
  {
    hide RunDoes, Stored, RunSegment;
    var n, ends, all := |outcomes|, marks + [|more|], outcomes + [outcome];
    LastSegment(https, calls[n], log, more, outcome);
    forall k | 0 <= k < |all| ensures RunSegment(https, calls[k], more, ends[k], ends[k + 1], all[k]) {
      if k < n {
        SegmentKept(https, calls[k], log, more, marks[k], marks[k + 1], outcomes[k]);
      }
    }
  }

  class Pairing {
    const env: Environment

    constructor (env: Environment)
      ensures this.env == env
    {
      this.env := env;
    }

    /** Store the token an approval carries. The approval is the last event. */
    method TakeApproval(
        request: Pending, deadline: real, response: Response, ghost before: seq<Event>, ghost polls: nat)
      returns (outcome: Outcome)
      requires env.Valid() && env.https && Waited(env.https, request, deadline, before, env.log, polls)
      requires Last(env.log) == Some(Polled(request.requestId, Answered(response))) && Approves(response)
      modifies env
      ensures env.Valid() && env.now == old(env.now)
      ensures Waited(env.https, request, deadline, before, env.log, polls)
      ensures outcome == if response.token.None? then NoToken
                         else if env.log == old(env.log) then TokenNotStored else SignedIn
      ensures outcome == SignedIn ==>
                env.signIn == response.token && env.pending == None
                && env.log == old(env.log) + [SavedSignIn(response.token.value)]
      ensures outcome != SignedIn ==>
                env.signIn == old(env.signIn) && env.pending == old(env.pending) && env.log == old(env.log)
    {
      hide Waited, Safe;
      if response.token.None? {
        return NoToken;
      }
      var ok := env.SaveSignIn(response.token.value);
      if !ok {
        return TokenNotStored;
      }
      WaitedAppend(env.https, request, deadline, before, old(env.log), polls, SavedSignIn(response.token.value));
      outcome := SignedIn;
    }

    /** What an outcome of waiting means for the sign-in file. */
    ghost predicate Decided(request: Pending, signedInBefore: Option<string>, outcome: Outcome)
      reads env
    {
      match outcome
      case SignedIn => env.signIn.Some? && env.pending == None && Last(env.log) == Some(SavedSignIn(env.signIn.value))
      case Denied => env.signIn == signedInBefore && env.pending == None
      case Expired => env.signIn == signedInBefore && env.pending == None
      case PollRefused => env.signIn == signedInBefore && (env.pending == Some(request) || env.pending == None)
      case _ => env.signIn == signedInBefore && env.pending == Some(request)
    }

    method Forget(request: Pending, deadline: real, ghost before: seq<Event>, ghost polls: nat)
      returns (ok: bool)
      requires env.Valid() && env.pending == Some(request)
      requires Waited(env.https, request, deadline, before, env.log, polls) && SafeDrop(Last(env.log), Some(request))
      modifies env`pending, env`log
      ensures env.Valid() && Waited(env.https, request, deadline, before, env.log, polls)
      ensures env.pending == if ok then None else Some(request)
      ensures env.log == old(env.log) + if ok then [Dropped(Some(request))] else []
    {
      hide Waited, Safe;
      ok := env.DropPending();
      if ok {
        WaitedAppend(env.https, request, deadline, before, old(env.log), polls, Dropped(Some(request)));
      }
    }

    /** Act on one answer: the outcome it decides, or how long to pause before the next poll. */
    method TakeAnswer(request: Pending, deadline: real, reply: PollReply, ghost before: seq<Event>, ghost polls: nat)
      returns (decided: Option<Outcome>, pause: real)
      requires env.Valid() && env.https && env.pending == Some(request)
      requires Waited(env.https, request, deadline, before, env.log, polls)
      requires Last(env.log) == Some(Polled(request.requestId, reply))
      modifies env
      ensures env.Valid() && env.now == old(env.now)
      ensures Waited(env.https, request, deadline, before, env.log, polls)
      ensures decided.None? <==> reply.Unreachable? || (reply.Answered? && Undecided(reply.response))
      ensures decided.Some? ==>
                Decided(request, old(env.signIn), decided.value) && OutcomeOf(request, deadline, env.log, decided.value)
      ensures decided.Some? ==> env.log == old(env.log) || AddedOne(old(env.log), env.log)
      ensures decided.None? ==>
                && env.signIn == old(env.signIn) && env.pending == Some(request) && env.log == old(env.log)
                && pause == PauseOf(request, reply) >= request.interval
    {
      hide Waited, Safe;
      pause := request.interval;
      if reply.Unreachable? {
        return None, pause;
      }
      if reply.Interrupted? {
        return Some(Stopped), pause;
      }
      var response := reply.response;
      var verdict := Verdict(response);
      if verdict == Some("approved") {
        var outcome := TakeApproval(request, deadline, response, before, polls);
        return Some(outcome), pause;
      }
      if verdict == Some("denied") || verdict == Some("expired") {
        var ok := Forget(request, deadline, before, polls);
        return Some(if !ok then StoreError else if verdict == Some("expired") then Expired else Denied), pause;
      }
      if Refusal(response) {
        if response.status == 409 {
          var ok := Forget(request, deadline, before, polls);
          if !ok {
            return Some(StoreError), pause;
          }
        }
        return Some(PollRefused), pause;
      }
      decided, pause := None, PauseAfter(request, response);
    }

    /** The pause before the next poll, cut at the deadline. */
    method PauseUntil(request: Pending, deadline: real, pause: real, ghost before: seq<Event>, ghost polls: nat)
      returns (interrupted: bool)
      requires env.Valid() && Waited(env.https, request, deadline, before, env.log, polls)
      modifies env`now, env`log
      ensures env.Valid() && Waited(env.https, request, deadline, before, env.log, polls)
      ensures env.now >= old(env.now) && |env.log| == |old(env.log)| + 2 && old(env.log) <= env.log
      ensures env.log[|old(env.log)|].ReadClock? && env.log[|old(env.log)|].time >= old(env.now)
      ensures env.log[|old(env.log)| + 1].Slept? && env.log[|old(env.log)| + 1].interrupted == interrupted
      ensures !interrupted ==> env.now >= Min(env.log[|old(env.log)|].time + pause, deadline)
    {
      hide Waited, Safe;
      var at := env.Clock();
      WaitedAppend(env.https, request, deadline, before, old(env.log), polls, ReadClock(at));
      ghost var log := env.log;
      var seconds := Max(0.0, Min(pause, deadline - at));
      interrupted := env.Sleep(at, seconds);
      WaitedAppend(env.https, request, deadline, before, log, polls, Slept(at, seconds, interrupted));
    }

    /** The checks before each poll: whether the code's time, or the time to wait, is over. */
    method TimeOver(request: Pending, deadline: real, ghost before: seq<Event>, ghost polls: nat)
      returns (over: Option<Outcome>)
      requires env.Valid() && env.pending == Some(request)
      requires Waited(env.https, request, deadline, before, env.log, polls)
      modifies env`now, env`log, env`pending
      ensures env.Valid() && env.now >= old(env.now)
      ensures Waited(env.https, request, deadline, before, env.log, polls)
      ensures env.log == old(env.log) + [ReadClock(env.now)]
                         + if env.pending.None? then [Dropped(Some(request))] else []
      ensures over.None? <==> env.now < Min(request.expiresAt, deadline)
      ensures over.None? ==> env.pending == Some(request)
      ensures over.Some? ==>
                Decided(request, env.signIn, over.value) && OutcomeOf(request, deadline, env.log, over.value)
    {
      hide Waited, Safe;
      var now := env.Clock();
      WaitedAppend(env.https, request, deadline, before, old(env.log), polls, ReadClock(now));
      if now >= request.expiresAt {
        var ok := Forget(request, deadline, before, polls);
        return Some(if ok then Expired else StoreError);
      }
      over := if now >= deadline then Some(NotFinished) else None;
    }

    method PollOnce(request: Pending, deadline: real, ghost before: seq<Event>, ghost polls: nat)
      returns (decided: Option<Outcome>, pause: real)
      requires env.Valid() && env.https && env.pending == Some(request)
      requires Waited(env.https, request, deadline, before, env.log, polls)
      modifies env
      ensures env.Valid() && env.now >= old(env.now)
      ensures Waited(env.https, request, deadline, before, env.log, polls + 1)
      ensures |env.log| > |old(env.log)| && old(env.log) <= env.log && env.log[|old(env.log)|].Polled?
      ensures forall i :: |old(env.log)| < i < |env.log| ==> !env.log[i].Polled?
      ensures decided.Some? ==>
                Decided(request, old(env.signIn), decided.value) && OutcomeOf(request, deadline, env.log, decided.value)
      ensures decided.None? ==>
                && env.signIn == old(env.signIn) && env.pending == Some(request)
                && |env.log| == |old(env.log)| + 1
                && pause == PauseOf(request, env.log[|old(env.log)|].reply) >= request.interval
    {
      hide Waited, Safe, OutcomeOf, PauseOf, Decided;
      var reply := env.Poll(request);
      WaitedAppend(env.https, request, deadline, before, old(env.log), polls, Polled(request.requestId, reply));
      decided, pause := TakeAnswer(request, deadline, reply, before, polls + 1);
    }

    /** One round of waiting: the checks, a poll, and the pause behind it; `polled` counts its poll. */
    method WaitRound(request: Pending, deadline: real, ghost before: seq<Event>, ghost polls: nat)
      returns (decided: Option<Outcome>, ghost polled: nat)
      requires env.Valid() && env.https && env.pending == Some(request)
      requires Waited(env.https, request, deadline, before, env.log, polls)
      modifies env
      ensures env.Valid() && env.now >= old(env.now)
      ensures Waited(env.https, request, deadline, before, env.log, polls + polled)
      ensures old(env.log) <= env.log && Round(request, deadline, env.log, |old(env.log)|)
      ensures env.log[|old(env.log)|].time >= old(env.now)
      ensures polled <= 1 && (polled == 1 ==> old(env.now) < deadline)
      ensures decided.Some? ==>
                Decided(request, old(env.signIn), decided.value) && OutcomeOf(request, deadline, env.log, decided.value)
      ensures decided.None? ==>
                && polled == 1 && env.signIn == old(env.signIn) && env.pending == Some(request)
                && Paused(request, deadline, env.log, |old(env.log)|, env.now)
                && env.now >= Min(old(env.now) + request.interval, deadline)
    {
      hide Waited, Safe, PauseOf, Decided;
      ghost var start := |env.log|;
      polled := 0;
      decided := TimeOver(request, deadline, before, polls);
      if decided.Some? {
        return;
      }
      hide OutcomeOf;
      var pause;
      decided, pause := PollOnce(request, deadline, before, polls);
      polled := 1;
      if decided.Some? {
        return;
      }
      var interrupted := PauseUntil(request, deadline, pause, before, polls + 1);
      if interrupted {
        decided := Some(Stopped);
        SleepStopped(request, deadline, env.log);
        StillStored(request);
      }
    }

    lemma StillStored(request: Pending)
      requires env.pending == Some(request)
      ensures Decided(request, env.signIn, Stopped)
    {
    }

    /** Poll until the request is decided or the deadline is reached. */
    method Wait(request: Pending, deadline: real) returns (outcome: Outcome)
      requires env.Valid() && Safe(env.https, env.log) && env.https && env.pending == Some(request)
      modifies env
      ensures env.Valid() && env.now >= old(env.now) && Decided(request, old(env.signIn), outcome)
      ensures Waited(env.https, request, deadline, old(env.log), env.log, Polls(env.log) - Polls(old(env.log)))
      // The request is polled at once if there is time left, and later polls respect every answer's pause.
      ensures WaitsFor(request, deadline, env.log, |old(env.log)|) && OutcomeOf(request, deadline, env.log, outcome)
      // Polls are an interval apart and end at the deadline, so there are only so many.
      ensures PollsFit(Polls(env.log) - Polls(old(env.log)), request.interval, deadline - old(env.now))
    {
      WaitedStart(env.https, request, deadline, env.log);
      SpanNext(0, request.interval);
      ghost var start, before := env.now, env.log;
      ghost var polls: nat := 0;
      while true
        invariant env.Valid() && env.pending == Some(request) && env.signIn == old(env.signIn) && env.now >= start
        invariant Waited(env.https, request, deadline, before, env.log, polls)
        invariant before <= env.log && Between(request, deadline, env.log, |before|, env.now)
        invariant PollsFit(polls, request.interval, deadline - start)
        invariant env.now >= start + Span(polls, request.interval) || env.now >= deadline
        decreases if env.now < deadline then (deadline - env.now).Floor + 1 else 0
      {
        hide Safe, Span, Decided, Waited, WaitsFor, Round, Paused, Between, OutcomeOf, PollsFit;
        SpanNext(polls, request.interval);
        ghost var log, now := env.log, env.now;
        var decided, polled := WaitRound(request, deadline, before, polls);
        RoundStarts(request, deadline, env.log, |log|);
        NextRound(request, deadline, |before|, log, now, env.log);
        PollsStep(start, now, request.interval, deadline, polls, polled);
        polls := polls + polled;
        if decided.Some? {
          WaitedFacts(env.https, request, deadline, before, env.log, polls);
          return decided.value;
        }
        RoundOver(request, deadline, env.log, |before|, |log|, env.now);
      }
    }

    /** Start a request, store it, and hand it to the wait. */
    method StartRequest() returns (request: Option<Pending>, failed: Outcome)
      requires env.Valid() && Safe(env.https, env.log) && SafeStart(env.pending, env.now)
      modifies env
      ensures env.Valid() && Safe(env.https, env.log) && env.now >= old(env.now)
      ensures env.signIn == old(env.signIn) && Polls(env.log) == Polls(old(env.log))
      ensures |env.log| > |old(env.log)| && old(env.log) <= env.log && env.log[|old(env.log)|].AskedStart?
      ensures request.Some? ==>
                && Startable(env.log[|old(env.log)|].offer) && |env.log| == |old(env.log)| + 3
                && env.log[|old(env.log)| + 1].ReadClock? && env.log[|old(env.log)| + 2].SavedPending?
                && request == env.pending == Some(env.log[|old(env.log)| + 2].pending)
                && request == Some(Offered(env.log[|old(env.log)|].offer, env.log[|old(env.log)| + 1].time))
      ensures request.None? ==>
                && env.pending == old(env.pending) && (failed == StartRefused || failed == StoreError)
                && StartsOne(true, env.log, |old(env.log)|, failed)
                && StartsOne(false, env.log, |old(env.log)|, failed)
    {
      hide Justified, CodeForm, WaitsInRun;
      failed := StartRefused;
      var reply := env.AskStart();
      LogQuiet(env.https, old(env.log), AskedStart(reply));
      if reply.NoStart? || reply.requestId == "" || !CodeForm(reply.code) {
        return None, failed;
      }
      ghost var log := env.log;
      var now := env.Clock();
      LogQuiet(env.https, log, ReadClock(now));
      var started := Pending(reply.requestId, reply.code, now + reply.expiresIn, Max(1.0, reply.interval));
      log := env.log;
      var replaced := env.pending;
      var ok := env.SavePending(started);
      if !ok {
        return None, StoreError;
      }
      LogStart(env.https, log, started, replaced, env.now);
      request := Some(started);
    }

    /** When a run stops waiting: at the code's end, without a terminal at most 50 seconds from now. */
    method Deadline(request: Pending, interactive: bool) returns (deadline: real)
      requires env.Valid() && Safe(env.https, env.log)
      modifies env`now, env`log
      ensures env.Valid() && Safe(env.https, env.log) && env.now >= old(env.now)
      ensures Polls(env.log) == Polls(old(env.log))
      ensures interactive ==> env.log == old(env.log) && deadline == request.expiresAt
      ensures !interactive ==>
                && env.log == old(env.log) + [ReadClock(env.now)]
                && deadline == Min(request.expiresAt, env.now + PAIR_WAIT_SECONDS)
    {
      deadline := request.expiresAt;
      if !interactive {
        var now := env.Clock();
        LogQuiet(env.https, old(env.log), ReadClock(now));
        deadline := Min(deadline, now + PAIR_WAIT_SECONDS);
      }
    }

    /** The stored request, if this run continues it: decided by the clock read first. */
    method Continued() returns (request: Option<Pending>)
      requires env.Valid() && Safe(env.https, env.log)
      modifies env`now, env`log
      ensures env.Valid() && Safe(env.https, env.log) && env.now >= old(env.now)
      ensures Polls(env.log) == Polls(old(env.log))
      ensures env.pending == old(env.pending)
      ensures env.log == old(env.log) + if env.pending.Some? then [ReadClock(env.now)] else []
      ensures request == if env.pending.Some? && Resumable(env.pending.value, env.now) then env.pending else None
    {
      request := env.pending;
      if request.Some? {
        var now := env.Clock();
        LogQuiet(env.https, old(env.log), ReadClock(now));
        if !Resumable(request.value, now) {
          request := None;
        }
      }
    }

    /** One `vbot devices pair`. */
    method Run(call: Call) returns (outcome: Outcome)
      requires env.Valid() && Safe(env.https, env.log)
      modifies env
      ensures env.Valid() && Safe(env.https, env.log) && old(env.log) <= env.log
      // Nothing is stored, dropped or polled without https.
      ensures !env.https ==> env.signIn == old(env.signIn) && env.pending == old(env.pending)
      ensures outcome != SignedIn ==> env.signIn == old(env.signIn)
      ensures outcome == SignedIn ==> env.signIn.Some? && Last(env.log) == Some(SavedSignIn(env.signIn.value))
      // The status answer settles the run, or a request is continued or started, and polled.
      ensures RunDoes(env.https, call, old(env.pending), env.log, |old(env.log)|, outcome)
      // Without a terminal a run polls at most once a second for 50 seconds.
      ensures !call.interactive ==> Polls(env.log) <= Polls(old(env.log)) + 50
    {
      hide Safe, Polls, Pairs;
      if !env.https && !call.loopback {
        return NothingSent;
      }
      var status := env.AskStatus();
      LogQuiet(env.https, old(env.log), AskedStatus(status));
      if status.NoStatus? {
        return NoAnswer;
      }
      if status.principal == Some("device") && status.device {
        return AlreadySignedIn;
      }
      if status.mode != "authenticated" {
        return NotNeeded;
      }
      if status.principal == Some("host") {
        return HostNeedsNone;
      }
      if !env.https {
        return PlainHttp;
      }
      ghost var log := env.log;
      outcome := Pair(call.interactive);
      assert env.log[|old(env.log)|] == log[|old(env.log)|];
    }

    /** Continue the stored request or start one, and wait for its decision. */
    method Pair(interactive: bool) returns (outcome: Outcome)
      requires env.Valid() && Safe(env.https, env.log) && env.https
      modifies env
      ensures env.Valid() && Safe(env.https, env.log) && old(env.log) <= env.log && env.now >= old(env.now)
      ensures outcome != SignedIn ==> env.signIn == old(env.signIn)
      ensures outcome == SignedIn ==> env.signIn.Some? && Last(env.log) == Some(SavedSignIn(env.signIn.value))
      ensures Pairs(old(env.pending), interactive, env.log, |old(env.log)|, outcome)
      ensures !interactive ==> Polls(env.log) <= Polls(old(env.log)) + 50
    {
      hide Safe, Justified, CodeForm, Waited, Polls, WaitsFor, OutcomeOf, Continues, WaitsInRun;
      var request := Continued();
      ghost var log := env.log;
      if request.None? {
        var failed;
        request, failed := StartRequest();
        if request.None? {
          assert env.log[..|log|] == log;
          assert StartsOne(interactive, env.log, |log|, failed);
          return failed;
        }
      }
      ghost var taken := env.log;
      outcome := WaitAsCalled(request.value, interactive);
      assert env.log[..|taken|] == taken;
    }

    /** Wait for a request as long as this run does. */
    method WaitAsCalled(request: Pending, interactive: bool) returns (outcome: Outcome)
      requires env.Valid() && Safe(env.https, env.log) && env.https && env.pending == Some(request)
      modifies env
      ensures env.Valid() && Safe(env.https, env.log) && old(env.log) <= env.log && env.now >= old(env.now)
      ensures Decided(request, old(env.signIn), outcome)
      ensures WaitsInRun(request, interactive, env.log, |old(env.log)|, outcome)
      ensures !interactive ==> Polls(env.log) <= Polls(old(env.log)) + 50
    {
      hide Safe, Justified, CodeForm, Waited, Polls, WaitsFor, OutcomeOf, Decided;
      var deadline := Deadline(request, interactive);
      ghost var log, now := env.log, env.now;
      outcome := Wait(request, deadline);
      WaitedFacts(env.https, request, deadline, log, env.log, Polls(env.log) - Polls(log));
      if !interactive {
        FiftyPolls(Polls(env.log) - Polls(log), request.interval, deadline - now);
        assert env.log[|old(env.log)|] == log[|old(env.log)|];
      }
    }

    /**
      Any number of runs keep the log safe, and each does what it owes the request stored when it began.
      `marks` tells where in the log the runs began and ended.
     */
    method Runs(calls: seq<Call>) returns (outcomes: seq<Outcome>, ghost marks: seq<nat>)
      requires env.Valid() && Safe(env.https, env.log)
      modifies env
      ensures env.Valid() && Safe(env.https, env.log) && old(env.log) <= env.log && |outcomes| == |calls|
      ensures (forall k :: 0 <= k < |outcomes| ==> outcomes[k] != SignedIn) ==> env.signIn == old(env.signIn)
      ensures AllRuns(env.https, calls, env.log, marks, outcomes)
      ensures marks[0] == |old(env.log)| && marks[|calls|] == |env.log|
    {
      outcomes, marks := [], [|env.log|];
      for i := 0 to |calls|
        invariant env.Valid() && Safe(env.https, env.log) && old(env.log) <= env.log && |outcomes| == i
        invariant (forall k :: 0 <= k < |outcomes| ==> outcomes[k] != SignedIn) ==> env.signIn == old(env.signIn)
        invariant |marks| == i + 1 && marks[0] == |old(env.log)| && marks[i] == |env.log|
        invariant AllRuns(env.https, calls, env.log, marks, outcomes)
      {
        hide Safe, AllRuns, RunDoes, Polls;
        ghost var before := env.log;
        var outcome := Run(calls[i]);
        AllRunsSize(env.https, calls, before, marks, outcomes);
        OneMoreRun(env.https, calls, before, env.log, marks, outcomes, outcome);
        marks := marks + [|env.log|];
        ghost var earlier := outcomes;
        outcomes := outcomes + [outcome];
        assert outcomes[i] == outcome && forall k :: 0 <= k < i ==> earlier[k] == outcomes[k];
      }
    }
  }

  predicate AddedOne(log: seq<Event>, more: seq<Event>) {
    |more| == |log| + 1 && log <= more && !more[|log|].Polled?
  }

  lemma SleepStopped(request: Pending, deadline: real, log: seq<Event>)
    requires log != [] && log[|log| - 1].Slept? && log[|log| - 1].interrupted
    ensures OutcomeOf(request, deadline, log, Stopped)
  {
  }

  lemma RoundStarts(request: Pending, deadline: real, log: seq<Event>, start: nat)
    requires Round(request, deadline, log, start)
    ensures start < |log| && log[start].ReadClock?
  {
  }

  lemma RoundOver(request: Pending, deadline: real, log: seq<Event>, start: nat, last: nat, now: real)
    requires start <= last && WaitsFor(request, deadline, log, start) && Paused(request, deadline, log, last, now)
    ensures Between(request, deadline, log, start, now)
  {
  }

  lemma AllRunsSize(https: bool, calls: seq<Call>, log: seq<Event>, marks: seq<nat>, outcomes: seq<Outcome>)
    requires AllRuns(https, calls, log, marks, outcomes)
    ensures |marks| == |outcomes| + 1
  {
  }

  /** Events that change nothing and count as no poll. */
  lemma LogQuiet(https: bool, log: seq<Event>, event: Event)
    requires Safe(https, log) && (event.ReadClock? || event.AskedStatus? || event.AskedStart?)
    ensures Safe(https, log + [event]) && Polls(log + [event]) == Polls(log)
  {
  }

  lemma LogStart(https: bool, log: seq<Event>, request: Pending, replaced: Option<Pending>, time: real)
    requires Safe(https, log) && SafeStart(replaced, time)
    ensures var event := SavedPending(request, replaced, time);
            Safe(https, log + [event]) && Polls(log + [event]) == Polls(log)
  {
  }

  lemma WaitedFacts(
      https: bool, request: Pending, deadline: real, before: seq<Event>, log: seq<Event>, polls: int)
    requires Waited(https, request, deadline, before, log, polls)
    ensures Safe(https, log) && before <= log && Polls(log) == Polls(before) + polls
    ensures Continues(request, log, |before|)
  {
  }

  lemma FiftyPolls(n: int, interval: real, seconds: real)
    requires PollsFit(n, interval, seconds) && interval >= 1.0 && seconds <= PAIR_WAIT_SECONDS
    ensures n <= 50
  {
  }
}
