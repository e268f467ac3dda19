# Interactive figure: session state machine

A Dafny model of the logic inside the `App` component of the interactive
anatomy figure (`src/App.tsx`). The component keeps one session record and
changes it through user handlers and browser timeouts. This model covers:

- the **stage sequencer**: `startDrowningSequence` arms all five stage
  callbacks at once, at cumulative offsets. The last callback marks the
  subject dead and clears the `drowning` flag 1000 ms later.
- the **two-phase clothing toggle**: hiding marks a layer `removing`, and a
  commit 500 ms later hides it if it is still marked. Showing is immediate.
- the **particle interval** (every 500 ms): each active channel keeps its
  last 20 particles and gains 3 new ones.
- the **element toggle**, which may arm a sequence start 1500 ms later when
  water is switched on.
- the **click-region classifier** for figure clicks and the **reaction
  cleanup** that drops reactions two seconds old.
- the `triggerAnimation`, `respawn` and `resetAll` handlers.

The session is an immutable `App.Session` datatype. Every handler and every
timeout callback is a pure function from a session to a session. Armed
timeouts are an explicit queue of `(fireAt, action)` entries. `App.Fire` fires
one of them and `App.Advance` fires the one due first (ties go to the one
armed first). The clock (`Date.now()`) and the random draws (`Math.random()`)
are parameters of the functions that read them.

Modules follow the components: `Timers` (the queue), `Stages` (stage table
and schedule), `Layers`, `Elements` (channels and particles), `Reactions`
(classifier and cleanup), and `App` (session, handlers, callbacks, invariant,
runs).

## Behaviour worth knowing

- The chest region of the click classifier uses strict bounds on all four
  sides (`src/App.tsx:181-182`). A click exactly on the chest box's edge
  falls through to the body branch, since the face region needs
  y < 0.25·h.
- `respawn` and `resetAll` cancel no timeouts (`src/App.tsx:294-318`). Stage
  callbacks armed by an earlier run stay queued. When they fire later, they
  set the stage again and the last one marks the subject dead again
  (`App.ResetsKeepStaleStages`).
- During the 500 ms removal window the layer is still `visible`, so a second
  toggle takes the hide branch again (`src/App.tsx:240-241`). The layer cannot
  be shown in that window, and the first commit hides it
  (`Layers.SecondToggleDoesNotCancelHide`, `App.DoubleToggleStillHides`).
- The commit armed when a hidden layer is shown is not cancelled either. If
  a later toggle marks the layer `removing` before that commit fires, the
  commit hides it, earlier than the 500 ms the hide itself arms
  (`src/App.tsx:241`, `src/App.tsx:249-256`; `App.ShowThenHideCommitsEarly`,
  `App.ShowThenHideFiresEarlyCommitFirst`).
- Only the click handler ignores its input while the subject is dead
  (`src/App.tsx:171`). `toggleElement` still flips the channel while dead; it
  reads `isDead` only to decide whether to arm the auto start
  (`src/App.tsx:269`), and arms none then. The toggles and animation buttons
  are otherwise only disabled in the rendered controls.
- The auto start checks `drowning`, which stays false until a start fires
  (`src/App.tsx:216`, `src/App.tsx:269`). Switching water on, off and on
  again within 1500 ms therefore arms two starts (`App.DoubleAutoStart`).
  The second resets the stage to 0 while the first run's stage callbacks
  stay armed (`src/App.tsx:217`; `App.SecondStartRewindsStage`).

## Model

| member | source | states |
|---|---|---|
| `Stages.ArmStages` | src/App.tsx:220-234 | The `forEach` with a running total arms exactly one callback per stage. Callback i is armed at the total of the durations of stages 0..i-1, taken before stage i's own duration is added. The final total is the sum of all durations. |
| `Stages.StageTimersSchedule` | src/App.tsx:220-233 | Stage offsets never decrease. The first callback fires at the start. Callbacks i and i+1 are exactly stage i's duration apart. Callback i carries stage index i. |
| `Stages.LastDurationUnused` | src/App.tsx:232-233 | Replacing the last stage's duration with any value leaves the schedule unchanged. |
| `Stages.DrowningSchedule` | src/App.tsx:42-78 | The table has five stages with durations 600000, 720000, 600000, 480000 and 300000 ms. Their callbacks fire 0, 600000, 1320000, 1920000 and 2400000 ms after the start. |
| `App.StartDrowningSequence` | src/App.tsx:215-235 | Sets `drowning`, stage 0 and progress 0. Appends the five stage callbacks at their concrete cumulative deadlines behind the timeouts already armed. Changes nothing else. |
| `App.StageCallback` | src/App.tsx:222-231 | Callback i sets stage i+1 and progress (i+1)/N·100. The subject is dead afterwards exactly when it was before or i is the last index. Only the last callback arms `DrowningOver`, 1000 ms later. |
| `App.ProgressEnds` | src/App.tsx:224 | Progress is 0 at stage 0, exactly 100 at stage N, and strictly increasing in between. |
| `App.RunStages` | src/App.tsx:220-233 | When the remaining stage callbacks are all that is armed, firing them in deadline order reaches stage N with progress 100 and the subject dead. Only `DrowningOver` remains, due 2401000 ms after the start. Layers, channels and reactions are untouched. |
| `App.Apply` | src/App.tsx:222-291 | What each fired timeout does. A stage callback runs `StageCallback`. `DrowningOver` clears only `drowning`. A commit hides exactly the named layers still removing and leaves all others. The start runs `startDrowningSequence`. An animation clear sets only its own flag false. Each action only appends to the queue and touches no other field. |
| `App.Fire` | src/App.tsx:222-291 | Firing the i-th armed timeout removes it. The timeouts armed before and after it keep their order. Its action runs at its own deadline. |
| `App.Advance` | src/App.tsx:222-291 | The queue loses at most one entry, the fired one; the action may append its own. Which timeout fires is stated by `App.AdvanceFiresEarliest`. |
| `App.AdvanceFiresEarliest` | src/App.tsx:222-291 | The timeout fired next has a deadline no armed deadline undercuts. Every timeout armed before it has a strictly later deadline, so ties go to the one armed first. |
| `App.AdvanceSingle` | src/App.tsx:228-230 | With one timeout armed, advancing fires it on an empty queue. |
| `App.DrowningOverClears` | src/App.tsx:228-230 | Firing a lone `DrowningOver` clears `drowning` and leaves nothing armed. Nothing else changes. |
| `App.WaterArmsStart` | src/App.tsx:259-276 | Switching water on in the initial session turns the channel on and arms only the start, 1500 ms later. |
| `App.WaterStartsSequence` | src/App.tsx:215-234 | Firing that start sets `drowning` and stage 0 and arms the five stage callbacks from its own deadline. |
| `App.AdvanceFiresHead` | src/App.tsx:221-232 | If no armed deadline is earlier than the first one, the next timeout to fire is the first. |
| `App.AdvanceRunsStage` | src/App.tsx:220-233 | When the stage callbacks from j on are all that is armed, the next timeout to fire is callback j, at its own cumulative deadline. |
| `App.WaterScenario` | src/App.tsx:259-300 | From the initial session, switching water on arms a start at +1500 ms. The start sets `drowning`. The five stages reach stage 5, progress 100 and death. `drowning` clears at +2402500 ms with nothing left armed. `respawn` then gives a live subject at stage 0. |
| `App.DoubleAutoStart` | src/App.tsx:259-276 | From the initial session, switching water on at t0, off at t0+100 and on at t0+200 arms two starts, at t0+1500 and t0+1700. |
| `App.SecondStartRewindsStage` | src/App.tsx:215-234 | A start firing while the stage is past 0 sets it back to 0 and keeps every timeout already armed. |
| `App.ResetsKeepStaleStages` | src/App.tsx:294-318 | After `respawn` or `resetAll`, a still-armed last-stage callback fires. It marks the subject dead again at stage N. |
| `Layers.Toggle` | src/App.tsx:237-247 | Only layers with the given id change. A visible layer becomes removing and stays visible. A hidden layer becomes visible and not removing. |
| `Layers.CommitHide` | src/App.tsx:249-256 | A layer with the given id that is still removing becomes hidden and not removing. Every other layer is unchanged. |
| `Layers.TogglePreservesConsistency` | src/App.tsx:237-256 | Both phases keep `removing ⇒ visible` for every layer. |
| `Layers.SecondToggleDoesNotCancelHide` | src/App.tsx:238-256 | Toggling a visible layer twice leaves it removing, and the commit then hides it. |
| `Layers.CommitAfterShowIsInert` | src/App.tsx:242-256 | When the toggle showed a hidden layer, the commit armed by that toggle changes nothing if it fires before any other toggle of that layer. |
| `App.ToggleClothing` | src/App.tsx:237-257 | The named layers end up visible. They are removing exactly when they were visible before. Other layers are unchanged. A commit is armed 500 ms later whichever branch ran. Nothing else changes. |
| `App.ShowThenHideCommitsEarly` | src/App.tsx:237-256 | Showing a hidden layer at t1 and toggling it again at t2 arms commits at t1+500 and t2+500. The layer is then visible and removing, and the first commit already hides it. |
| `App.ShowThenHideFiresEarlyCommitFirst` | src/App.tsx:237-256 | With nothing else armed and t1 ≤ t2, that first commit is the next timeout to fire, and it hides the layer. |
| `App.DoubleToggleStillHides` | src/App.tsx:237-256 | Two toggles of a visible layer arm two commits. The layer is still visible and removing, and the first commit hides it. |
| `Layers.ShowAll` | src/App.tsx:303-307 | Every layer is visible and not removing, with ids and names kept. |
| `Elements.LastN` | src/App.tsx:151 | For a positive n, as the tick's `slice(-20)` uses it, `slice(-n)` returns the suffix of length min(length, n). `slice(-0)` returns the whole array, so n = 0 is excluded. |
| `Elements.NewParticles` | src/App.tsx:142-147 | A batch is exactly three particles with ids now, now+1 and now+2. |
| `Elements.TickElement` | src/App.tsx:139-152 | An inactive channel is returned unchanged. An active channel's new list has min(old, 20)+3 ≤ 23 entries: a suffix of the old list followed by exactly the three new particles. |
| `Elements.Tick` | src/App.tsx:139-153 | The `prev.map` keeps the number and order of the channels, and channel i becomes exactly what the per-channel tick makes of it with its own random draws. |
| `Elements.TickBounds` | src/App.tsx:137-157 | After a tick every active channel holds at most 23 particles and inactive channels are unchanged. So the bound, once true, stays true. |
| `App.ParticleTick` | src/App.tsx:137-157 | The interval makes every channel exactly what the per-channel tick makes of it with its own draws. An inactive channel is left alone. An active one becomes the last min(old, 20) of its old particles followed by exactly the three new ones, so at most 23. Nothing outside the channel list changes. |
| `Elements.Toggle` | src/App.tsx:260-264 | Channels with the given id flip `active` and lose their particles. All other channels are unchanged. |
| `Elements.ToggleTwice` | src/App.tsx:260-264 | Toggling twice restores every channel's `active` flag. The toggled channels stay empty and the others are unchanged. |
| `Elements.FindIndex` | src/App.tsx:268 | Returns the first index with the id, or -1 exactly when there is none. |
| `App.ToggleElement` | src/App.tsx:259-276 | Flips and empties the named channel only, keeping its id and name. The queue grows exactly when the id is water, the first water channel was off before the toggle, `drowning` is false and the subject is alive. It then grows by one start at +1500 ms, and otherwise stays the same. Nothing else changes. |
| `Elements.DeactivateAll` | src/App.tsx:308-312 | Every channel is inactive with no particles, with ids and names kept. |
| `Reactions.Classify` | src/App.tsx:177-192 | Strictly inside the chest box: blush exactly when the draw exceeds 0.5, else pleasure. Otherwise above a quarter of the height: shock. Otherwise blush exactly when the draw exceeds 0.7, else heart. |
| `Reactions.ClassifyRegions` | src/App.tsx:180-192 | Reading back from the kind: pleasure only comes from the chest, shock exactly from the face region, heart only from outside both. |
| `Reactions.ClassifySamples` | src/App.tsx:180-192 | In a non-empty box, a click at (0.1W, 0.1H) is shock and a click at (0.5W, 0.35H) is blush or pleasure. |
| `App.Click` | src/App.tsx:170-202 | While dead the session is unchanged. Otherwise exactly one reaction is appended, at the click position relative to the box, stamped with the current time, with a kind that fits its region. Nothing else changes. |
| `Reactions.Cleanup` | src/App.tsx:162-164 | Every surviving reaction is younger than 2000 ms and occurs in the input, and there are never more of them than before. |
| `Reactions.CleanupIsSubsequence` | src/App.tsx:162-164 | The result is a subsequence of the input, so order is preserved. |
| `Reactions.CleanupKeepsExactlyLive` | src/App.tsx:163 | Each live reaction is kept as often as it occurs, and no expired one is kept. |
| `Reactions.CleanupOfLive` | src/App.tsx:163 | A list of live reactions passes through unchanged. |
| `Reactions.CleanupIdempotent` | src/App.tsx:160-168 | Cleaning twice at the same instant equals cleaning once. |
| `App.CleanupTick` | src/App.tsx:160-168 | After the cleanup interval every reaction is live. Each live reaction is kept as often as it occurred and each expired one is dropped, in the original order. Nothing outside the reaction list changes. |
| `App.TriggerAnimation` | src/App.tsx:278-292 | The drowning button starts the sequence. Pain sets its flag and arms the clear at +1000 ms. Death sets its flag and `isDead`, and arms the clear at +3000 ms. Neither touches layers, channels, reactions or the stage. |
| `App.Respawn` | src/App.tsx:294-300 | Subject alive, stage and progress 0, no animation flags, no reactions. Layers, channels and the armed timeouts are unchanged. |
| `App.ResetAll` | src/App.tsx:302-318 | Everything `respawn` does, plus every layer visible and not removing and every channel inactive and empty, with ids and names kept. The armed timeouts are unchanged. |
| `App.ResetsAreIdempotent` | src/App.tsx:294-318 | Resetting twice equals resetting once, and `resetAll` after `respawn` equals `resetAll`. |
| `App.InitialInv` | src/App.tsx:83-132 | The initial session satisfies the invariant. |
| `App.ApplyPreservesInv` | src/App.tsx:222-256 | Every timeout action keeps the invariant, a stage callback provided its stage index is in range (as every armed one is under the invariant). |
| `App.FirePreservesInv` | src/App.tsx:222-256 | Firing any armed timeout keeps the invariant. |
| `App.StepPreservesInv` | src/App.tsx:137-318 | Every handler, interval and timeout keeps the invariant. The invariant is: `removing ⇒ visible` on every layer, at most 23 particles per channel, stage ≤ N with progress equal to stage/N·100, and every armed stage callback in range. |

## Left out

- Rendering (JSX, SVG, CSS, icons, `getReactionEmoji`) is presentation only.
- The scale pulse on the figure element (`figureRef` and its 150 ms timeout) is a direct DOM side effect.
- The intensity slider and the brightness and opacity arithmetic driven by it are floating-point display math.
- Particle coordinates and sizes are the random draws scaled, and no property depends on them.
- Elements.NewParticles: the ids are `now`, `now`+1 and `now`+2 for one `now` shared by every channel in the tick. The source reads `Date.now()` once per particle (`src/App.tsx:143`), so the ids of one batch can skip values (t, t+2, t+3) and channels can see different clocks.
- Reactions.Cleanup: one `now` is used for the whole list. The source reads `Date.now()` once per reaction inside the filter (`src/App.tsx:163`), so a reaction near the 2000 ms boundary can be judged against a slightly later clock than its predecessors.
- App.Click: one `now` is both the reaction's id and its timestamp. The source reads `Date.now()` twice (`src/App.tsx:195`, `src/App.tsx:199`), so the two can differ by a millisecond.
- Reactions.Classify and App.Click: the click offsets (`src/App.tsx:174-175`) and the region thresholds (`src/App.tsx:181-182`) are exact reals. The source computes them in double precision, so a click within rounding distance of a boundary may be classified differently.
- The reaction id is the timestamp as a number; the source's `toString()` is not modelled.
- Progress is an exact rational. The source computes it in floating point. For five stages the two agree.
- React's batching of `setState` calls, stale closures and the teardown of the two intervals are framework behaviour. `toggleElement` reads the session before the toggle, as its closure does.
- The two intervals (particles every 500 ms, cleanup every 100 ms) are events the caller issues (`App.ParticleTick`, `App.CleanupTick`), not entries of the timeout queue.
- The `disabled` flags of the controls are not preconditions. The handlers are modelled as the source writes them, unguarded.
- Timeout ordering follows deadlines, with ties in arming order. Browser clamping and delays are not modelled.
