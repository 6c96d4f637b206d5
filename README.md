# Game settings pause/resume countdown

This project models the one piece of logic in the `GameSettings` component of
joi.how's game screen (`src/game/components/GameSettings.tsx`). That logic
links the settings dialog to the shared game phase:

- Opening the dialog cancels any countdown and turns an `active` game into
  `pause`.
- Closing the dialog arms a 3000 ms countdown.
- A looping callback fires once a second, but only while the dialog is closed,
  the phase is `pause` and a countdown is armed. While the countdown is
  positive, each call sends a "Get ready to continue." notification that shows
  the seconds left ("3...", "2...", "1...") and takes 1000 ms off. At exactly
  zero, the call sends "Continue." (no description, shown for 1500 ms), sets
  the phase to `active` and disarms the countdown.

The files:

- `GameSettings.dfy`, module `GameSettingsCountdown`:
  - the `Phase` and `Message` datatypes;
  - specification functions on a `Snapshot` of the state (`AfterOpen`,
    `AfterTick`, `AfterPhaseSet`), plus `Step` and `Run` over traces of
    events;
  - lemmas about those functions;
  - the class `GameSettings`, whose fields `open`, `phase`, `timer` and
    `messages` are updated in place by `OnOpen`, `Tick` and
    `SetPhaseExternally`. Each method is proved to match the specification
    function for its transition.
- `Decimal.dfy`: the decimal rendering of the number of seconds in the
  notification's description, and the parser it round-trips with.
- `Wrappers.dfy`: `Option`, which stands for a value that may be `undefined`.

The scheduler behind the looping callback becomes explicit `Tick` calls. The
notifier becomes an append-only `messages` log. A phase change made elsewhere
in the game becomes `SetPhaseExternally`.

## Model

| member | source | states |
|---|---|---|
| `GameSettingsCountdown.AfterOpen` | src/game/components/GameSettings.tsx:84-100 | Opening sets `open`, disarms the countdown (so no tick is enabled) and turns `active` into `pause`, leaving any other phase unchanged; the game is never left active. Closing clears `open` and sets the countdown to exactly 3000 whatever it was, leaving the phase alone. Neither sends a message, and the result always satisfies the timer invariant. |
| `GameSettingsCountdown.AfterTick` | src/game/components/GameSettings.tsx:102-125 | Changes nothing unless the dialog is closed, the phase is `pause` and a countdown is armed. When enabled with a positive countdown, it appends exactly the "Get ready" message for that countdown and lowers the countdown by 1000, keeping `phase` and `open`. At 0 it appends "Continue.", sets the phase to `active` and disarms the countdown, after which no tick is enabled. A negative countdown falls through both branches as a no-op. The only phase change a tick makes is `pause` to `active`, and it keeps the timer invariant. |
| `GameSettingsCountdown.AfterPhaseSet` | src/game/components/GameSettings.tsx:79 | A phase change made elsewhere sets the phase and leaves the dialog flag, the countdown and the log unchanged. |
| `GameSettingsCountdown.GetReadyMessage` | src/game/components/GameSettings.tsx:105-111 | The warning carries id `game-settings`, title "Get ready to continue.", a description and no duration. |
| `GameSettingsCountdown.WarningTexts` | src/game/components/GameSettings.tsx:109 | The warnings at 3000, 2000 and 1000 ms read "3...", "2..." and "1...". |
| `GameSettingsCountdown.GetReadyShowsSeconds` | src/game/components/GameSettings.tsx:109 | The warning's description is a string of decimal digits that reads back as `timer / 1000`, followed by "...". |
| `GameSettingsCountdown.Step` | src/game/components/GameSettings.tsx:84-125 | Every transition (open, close, tick, outside phase change) keeps the timer invariant and only appends to the message log. |
| `GameSettingsCountdown.CountdownLogAt` | src/game/components/GameSettings.tsx:105-118 | A countdown of `k` seconds sends `k + 1` messages: message `i` is the warning for `k - i` seconds for every `i < k`, and the last is "Continue.". |
| `GameSettingsCountdown.RunKeepsTimerInvariant` | src/game/components/GameSettings.tsx:80-125 | Over any trace of events, the countdown stays either disarmed or one of 0, 1000, 2000, 3000, so it is never negative. |
| `GameSettingsCountdown.RunOnlyAppends` | src/game/components/GameSettings.tsx:106-118 | Over any trace of events, messages already sent stay in the log as a prefix. |
| `GameSettingsCountdown.QuietUntilClosed` | src/game/components/GameSettings.tsx:84-125 | From a disarmed countdown, no trace that never closes the dialog arms one or sends any message. |
| `GameSettingsCountdown.DisarmedTicksAreNoOps` | src/game/components/GameSettings.tsx:102-125 | Once the countdown is disarmed (as "Continue." leaves it), any number of further ticks changes nothing. |
| `GameSettingsCountdown.TickCountsDownOneSecond` | src/game/components/GameSettings.tsx:105-111 | An enabled tick with a positive whole number of seconds left sends the warning for those seconds and leaves one second (1000 ms) fewer, changing nothing else. |
| `GameSettingsCountdown.TickResumes` | src/game/components/GameSettings.tsx:112-120 | An enabled tick at exactly 0 sends "Continue.", sets the phase to `active` and disarms the countdown, changing nothing else. |
| `GameSettingsCountdown.CountdownCompletes` | src/game/components/GameSettings.tsx:102-125 | An enabled countdown with `k` whole seconds left finishes in `k + 1` ticks. It appends exactly `CountdownLog(k)`, leaves the game active and the countdown disarmed, and keeps the dialog flag. |
| `GameSettingsCountdown.ReopeningCancels` | src/game/components/GameSettings.tsx:84-125 | Opening the dialog mid-countdown cancels it: after any number of ticks the countdown is still disarmed and no message has been sent. |
| `GameSettingsCountdown.GameSettings.constructor` | src/game/components/GameSettings.tsx:77-81 | On mount the dialog is closed, no countdown is armed and nothing has been sent; the phase is whatever the game holds. |
| `GameSettingsCountdown.GameSettings.OnOpen` | src/game/components/GameSettings.tsx:84-100 | Updates the fields in place exactly as `AfterOpen` describes, and establishes the timer invariant. |
| `GameSettingsCountdown.GameSettings.Tick` | src/game/components/GameSettings.tsx:102-125 | Checks the enabling condition of line 124, then updates the fields exactly as `AfterTick` describes. It keeps the timer invariant. |
| `GameSettingsCountdown.GameSettings.SetPhaseExternally` | src/game/components/GameSettings.tsx:79 | Updates the phase exactly as `AfterPhaseSet` describes, and keeps the timer invariant. |
| `GameSettingsCountdown.ResumeScenario` | src/game/components/GameSettings.tsx:84-125 | Starting from a paused game with the dialog open, closing the dialog and four ticks send exactly "3...", "2...", "1..." (each a "Get ready to continue." message with id `game-settings`) and then "Continue." with no description and duration 1500. They leave the game `active` with the countdown disarmed. |
| `Decimal.Show` | src/game/components/GameSettings.tsx:109 | Renders a whole number as a non-empty string of decimal digits with no leading zero. It is one character long exactly for numbers below 10. |
| `Decimal.ParseShow` | src/game/components/GameSettings.tsx:109 | Reading a rendered number back gives the number, so the description denotes the seconds left. |

## Left out

- Rendering and styling (the styled components, the `Dialog` wrapper, the cog
  button, `GameSettingsDialog`) and the settings panels the dialog shows. They
  hold no logic of this component.
- The 1000 ms wall-clock scheduling inside `useLooping`. Ticks are explicit
  calls, and the enabling condition is checked at the start of each one.
- How the notifier shows messages: a message replaces an earlier one with the
  same id on screen, and a message without a duration stays until replaced.
  The model keeps an append-only log of the messages sent.
- React's batching of state updates and stale values in callbacks. Each
  transition is one atomic sequential update of the state.
- GetReadyShowsSeconds: the description is `timer * 0.001` in floating point. It is
  modelled as the integer `timer / 1000`, which is the same number whenever
  the timer is a whole number of seconds. The timer invariant guarantees that
  for every reachable state.
- The phase values other than `active` and `pause` are kept as an opaque
  `Other(name)`. The component never distinguishes between them.
