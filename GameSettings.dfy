/** The pause/resume countdown of the in-game settings dialog.

    Opening the dialog cancels any countdown and pauses a running game;
    closing it arms a three-second countdown.  A tick, fired once a second
    while the dialog is closed, the game is paused and a countdown is armed,
    either announces the seconds left and counts down by one second or, at
    zero, announces "Continue.", resumes the game and disarms the countdown.

    The scheduler that fires ticks becomes explicit calls of `Tick`, and the
    notifier becomes an append-only log of the messages sent. */
module GameSettingsCountdown {
  import opened Wrappers
  import Decimal

  /** The shared game phase; only `active` and `pause` matter here. */
  datatype Phase = Active | Pause | Other(name: string)

  /** A notification as handed to the notifier. */
  datatype Message = Message(id: string, title: string, description: Option<string>, duration: Option<int>)

  const MessageId: string := "game-settings"
  const GetReadyTitle: string := "Get ready to continue."
  const ContinueTitle: string := "Continue."
  /** Milliseconds armed when the dialog closes. */
  const CountdownMs: int := 3000
  /** Milliseconds between ticks, and the step the countdown takes. */
  const TickMs: int := 1000
  /** How long the "Continue." notification stays on screen. */
  const ContinueDurationMs: int := 1500

  /** The warning that shows `seconds` whole seconds left, followed by "...". */
  function Warning(seconds: nat): Message
  {
    Message(MessageId, GetReadyTitle, Some(Decimal.Show(seconds) + "..."), None)
  }

  /** The warning sent while `timer` milliseconds are left: it shows the
      whole seconds left. */
  function GetReadyMessage(timer: nat): (m: Message)
    ensures m.id == MessageId && m.title == GetReadyTitle && m.duration == None
    ensures m.description.Some?
  {
    Warning(timer / 1000)
  }

  /** The warning's description is a decimal number, which denotes the whole
      seconds left, followed by "...". */
  lemma GetReadyShowsSeconds(timer: nat)
    ensures var d := GetReadyMessage(timer).description.value;
      |d| >= 4 && d[|d| - 3..] == "..." && Decimal.AllDigits(d[..|d| - 3])
      && Decimal.Parse(d[..|d| - 3]) == timer / 1000
  {
    var seconds := Decimal.Show(timer / 1000);
    Decimal.ParseShow(timer / 1000);
    assert (seconds + "...")[..|seconds|] == seconds;
  }

  /** The notification sent when the countdown reaches zero. */
  const ContinueMessage: Message := Message(MessageId, ContinueTitle, None, Some(ContinueDurationMs))

  /** The state the countdown logic sees: the dialog's open flag, the shared
      phase, the optional countdown and the messages sent so far. */
  datatype Snapshot = Snapshot(open: bool, phase: Phase, timer: Option<int>, messages: seq<Message>)

  /** The condition under which the scheduler fires ticks. */
  predicate TickEnabled(s: Snapshot) {
    !s.open && s.phase == Pause && s.timer.Some?
  }

  /** The countdown is disarmed or holds a whole number of seconds, at most
      three; in particular it is never negative. */
  predicate TimerInvariant(timer: Option<int>) {
    timer.Some? ==> 0 <= timer.value <= CountdownMs && timer.value % TickMs == 0
  }

  /** The dialog is opened (`open`) or closed (`!open`). */
  function AfterOpen(s: Snapshot, open: bool): (r: Snapshot)
    ensures r.open == open && r.messages == s.messages
    ensures open ==> r.timer == None && !TickEnabled(r)
    ensures open ==> r.phase != Active
    ensures open ==> (r.phase == Pause <==> s.phase == Active || s.phase == Pause)
    ensures open && s.phase != Active ==> r.phase == s.phase
    ensures !open ==> r.timer == Some(CountdownMs) && r.phase == s.phase
    ensures TimerInvariant(r.timer)
  {
    if open then
      s.(timer := None, phase := if s.phase == Active then Pause else s.phase, open := true)
    else
      s.(timer := Some(CountdownMs), open := false)
  }

  /** One firing of the periodic callback; a no-op while it is not enabled. */
  function AfterTick(s: Snapshot): (r: Snapshot)
    ensures !TickEnabled(s) ==> r == s
    ensures r.open == s.open
    ensures TickEnabled(s) && s.timer.value > 0 ==>
      r.phase == s.phase && r.timer == Some(s.timer.value - TickMs)
      && r.messages == s.messages + [GetReadyMessage(s.timer.value)]
    ensures TickEnabled(s) && s.timer.value == 0 ==>
      r.phase == Active && r.timer == None && !TickEnabled(r)
      && r.messages == s.messages + [ContinueMessage]
    ensures TickEnabled(s) && s.timer.value < 0 ==> r == s
    ensures r.phase != s.phase ==> s.phase == Pause && r.phase == Active && r.timer == None
    ensures TimerInvariant(s.timer) ==> TimerInvariant(r.timer)
  {
    if !TickEnabled(s) then s
    else
      var t := s.timer.value;
      if t > 0 then
        s.(messages := s.messages + [GetReadyMessage(t)], timer := Some(t - TickMs))
      else if t == 0 then
        s.(messages := s.messages + [ContinueMessage], phase := Active, timer := None)
      else
        s
  }

  /** The shared phase is changed elsewhere in the game. */
  function AfterPhaseSet(s: Snapshot, p: Phase): (r: Snapshot)
    ensures r.phase == p
    ensures r.open == s.open && r.timer == s.timer && r.messages == s.messages
  {
    s.(phase := p)
  }

  /** Everything that can happen to the countdown's state. */
  datatype Event = SetOpen(open: bool) | Tick | PhaseSet(phase: Phase)

  function Step(s: Snapshot, e: Event): (r: Snapshot)
    ensures TimerInvariant(s.timer) ==> TimerInvariant(r.timer)
    ensures |s.messages| <= |r.messages| && r.messages[..|s.messages|] == s.messages
  {
    match e
    case SetOpen(b) => AfterOpen(s, b)
    case Tick => AfterTick(s)
    case PhaseSet(p) => AfterPhaseSet(s, p)
  }

  /** The state after a trace of events, in order. */
  function Run(s: Snapshot, events: seq<Event>): Snapshot
    decreases |events|
  {
    if events == [] then s else Run(Step(s, events[0]), events[1..])
  }

  /** The state after `n` ticks with nothing else happening. */
  function Ticks(s: Snapshot, n: nat): Snapshot
    decreases n
  {
    if n == 0 then s else Ticks(AfterTick(s), n - 1)
  }

  /** The messages a countdown armed with `seconds` whole seconds sends. */
  function CountdownLog(seconds: nat): seq<Message>
    decreases seconds
  {
    if seconds == 0 then [ContinueMessage]
    else [Warning(seconds)] + CountdownLog(seconds - 1)
  }

  /** A countdown of `seconds` seconds sends `seconds + 1` messages: the
      warnings for `seconds`, ..., 1 seconds, in that order, and then
      "Continue.". */
  lemma {:induction false} CountdownLogAt(seconds: nat, i: nat)
    requires i <= seconds
    ensures |CountdownLog(seconds)| == seconds + 1
    ensures CountdownLog(seconds)[i]
         == if i == seconds then ContinueMessage else Warning(seconds - i)
    decreases seconds
  {
    if seconds > 0 {
      CountdownLogAt(seconds - 1, if i > 0 then i - 1 else 0);
      if i > 0 {
        assert CountdownLog(seconds)[i] == CountdownLog(seconds - 1)[i - 1];
      }
    }
  }

  /** Whatever happens, the countdown stays within its invariant. */
  lemma {:induction false} RunKeepsTimerInvariant(s: Snapshot, events: seq<Event>)
    requires TimerInvariant(s.timer)
    ensures TimerInvariant(Run(s, events).timer)
    decreases |events|
  {
    if events != [] {
      RunKeepsTimerInvariant(Step(s, events[0]), events[1..]);
    }
  }

  /** Messages are only ever appended. */
  lemma {:induction false} RunOnlyAppends(s: Snapshot, events: seq<Event>)
    ensures |s.messages| <= |Run(s, events).messages|
    ensures Run(s, events).messages[..|s.messages|] == s.messages
    decreases |events|
  {
    if events != [] {
      var s' := Step(s, events[0]);
      RunOnlyAppends(s', events[1..]);
      var m := Run(s, events).messages;
      assert m[..|s.messages|] == m[..|s'.messages|][..|s.messages|];
    }
  }

  /** With no countdown armed, nothing short of closing the dialog arms one,
      and until then no tick sends a message. */
  lemma {:induction false} QuietUntilClosed(s: Snapshot, events: seq<Event>)
    requires s.timer == None
    requires forall i :: 0 <= i < |events| ==> events[i] != SetOpen(false)
    ensures Run(s, events).timer == None
    ensures Run(s, events).messages == s.messages
    decreases |events|
  {
    if events != [] {
      assert events[0] != SetOpen(false);
      QuietUntilClosed(Step(s, events[0]), events[1..]);
    }
  }

  /** Once the countdown is disarmed, ticks change nothing. */
  lemma {:induction false} DisarmedTicksAreNoOps(s: Snapshot, n: nat)
    requires s.timer == None
    ensures Ticks(s, n) == s
    decreases n
  {
    if n > 0 {
      DisarmedTicksAreNoOps(AfterTick(s), n - 1);
    }
  }

  /** One enabled tick with `seconds > 0` seconds left sends that warning
      and leaves one second fewer. */
  lemma TickCountsDownOneSecond(s: Snapshot, seconds: nat)
    requires TickEnabled(s) && seconds > 0 && s.timer == Some(seconds * 1000)
    ensures AfterTick(s)
         == s.(messages := s.messages + [Warning(seconds)], timer := Some((seconds - 1) * 1000))
  {
    assert seconds * 1000 / 1000 == seconds;
  }

  /** The last enabled tick, at zero, resumes the game. */
  lemma TickResumes(s: Snapshot)
    requires TickEnabled(s) && s.timer == Some(0)
    ensures Ticks(s, 1) == s.(phase := Active, timer := None, messages := s.messages + CountdownLog(0))
  {
    assert Ticks(s, 1) == Ticks(AfterTick(s), 0);
  }

  /** The first of `n + 1` ticks is an ordinary tick. */
  lemma TicksFirst(s: Snapshot, n: nat)
    ensures Ticks(s, n + 1) == Ticks(AfterTick(s), n)
  {
  }

  /** The snapshot after one warning and the rest of the countdown is the
      snapshot after the whole countdown. */
  lemma CountdownLogSplits(s: Snapshot, seconds: nat)
    requires seconds > 0
    ensures var s' := s.(messages := s.messages + [Warning(seconds)]);
      s'.(phase := Active, timer := None, messages := s'.messages + CountdownLog(seconds - 1))
      == s.(phase := Active, timer := None, messages := s.messages + CountdownLog(seconds))
  {
    var m := Warning(seconds);
    var rest := CountdownLog(seconds - 1);
    assert (s.messages + [m]) + rest == s.messages + ([m] + rest);
  }

  /** An enabled countdown with `seconds` seconds left runs to completion in
      `seconds + 1` ticks: it sends one warning per second and "Continue.",
      and leaves the game active and the countdown disarmed. */
  lemma {:induction false} CountdownCompletes(s: Snapshot, seconds: nat)
    requires TickEnabled(s) && s.timer == Some(seconds * 1000)
    ensures Ticks(s, seconds + 1)
         == s.(phase := Active, timer := None, messages := s.messages + CountdownLog(seconds))
    decreases seconds
  {
    if seconds == 0 {
      TickResumes(s);
    } else {
      var s' := s.(messages := s.messages + [Warning(seconds)], timer := Some((seconds - 1) * 1000));
      TickCountsDownOneSecond(s, seconds);
      TicksFirst(s, seconds);
      assert Ticks(s, seconds + 1) == Ticks(s', seconds);
      CountdownCompletes(s', seconds - 1);
      CountdownLogSplits(s, seconds);
    }
  }

  /** Opening the dialog mid-countdown cancels it: no later tick sends a
      message, however many fire. */
  lemma {:induction false} ReopeningCancels(s: Snapshot, n: nat)
    ensures Ticks(AfterOpen(s, true), n).messages == s.messages
    ensures Ticks(AfterOpen(s, true), n).timer == None
  {
    DisarmedTicksAreNoOps(AfterOpen(s, true), n);
  }

  /** The settings component's countdown state, updated in place. */
  class GameSettings {
    var open: bool
    var phase: Phase
    var timer: Option<int>
    var messages: seq<Message>

    function State(): Snapshot
      reads this
    {
      Snapshot(open, phase, timer, messages)
    }

    ghost predicate Valid()
      reads this
    {
      TimerInvariant(timer)
    }

    /** Mounting: the dialog is closed, no countdown, nothing sent; the phase
        is whatever the game is in. */
    constructor (phase: Phase)
      ensures Valid()
      ensures State() == Snapshot(false, phase, None, [])
    {
      open := false;
      this.phase := phase;
      timer := None;
      messages := [];
    }

    method OnOpen(b: bool)
      modifies this
      ensures Valid()
      ensures State() == AfterOpen(old(State()), b)
    {
      if b {
        timer := None;
        if phase == Active {
          phase := Pause;
        }
      } else {
        timer := Some(CountdownMs);
      }
      open := b;
    }

    method Tick()
      modifies this
      ensures old(Valid()) ==> Valid()
      ensures State() == AfterTick(old(State()))
    {
      if !open && phase == Pause && timer.Some? {
        var t := timer.value;
        if t > 0 {
          messages := messages + [GetReadyMessage(t)];
          timer := Some(t - TickMs);
        } else if t == 0 {
          messages := messages + [ContinueMessage];
          phase := Active;
          timer := None;
        }
      }
    }

    method SetPhaseExternally(p: Phase)
      modifies this
      ensures old(Valid()) ==> Valid()
      ensures State() == AfterPhaseSet(old(State()), p)
    {
      phase := p;
    }
  }

  /** The warnings of a three-second countdown read "3...", "2..." and "1...". */
  lemma WarningTexts()
    ensures GetReadyMessage(3000).description == Some("3...")
    ensures GetReadyMessage(2000).description == Some("2...")
    ensures GetReadyMessage(1000).description == Some("1...")
  {
    assert Decimal.Show(3) == "3" && Decimal.Show(2) == "2" && Decimal.Show(1) == "1";
    assert "3" + "..." == "3..." && "2" + "..." == "2..." && "1" + "..." == "1...";
  }

  /** A paused game with the dialog open: closing it and letting four ticks
      fire counts "3...", "2...", "1..." and resumes the game. */
  method ResumeScenario() returns (log: seq<Message>, phase: Phase, timer: Option<int>)
    ensures |log| == 4
    ensures forall i :: 0 <= i < 3 ==> log[i].id == MessageId && log[i].title == GetReadyTitle
    ensures log[0].description == Some("3...")
    ensures log[1].description == Some("2...")
    ensures log[2].description == Some("1...")
    ensures log[3] == Message(MessageId, "Continue.", None, Some(1500))
    ensures phase == Active && timer == None
  {
    var g := new GameSettings(Pause);
    g.OnOpen(true);
    g.OnOpen(false);
    g.Tick();
    g.Tick();
    g.Tick();
    g.Tick();
    log, phase, timer := g.messages, g.phase, g.timer;
    WarningTexts();
  }
}
