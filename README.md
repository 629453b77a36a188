# A verified model of the Saint-Valentin slideshow

The program is a React slideshow of seven interactive chapters shown one
after another. `App` holds the index of the current chapter and hands each
of chapters 1–6 a callback that moves on to the next one; chapter 7, the
last, gets none. Each chapter reveals fixed French texts in answer to
clicks (and, in chapter 5, hovers):

- Chapters 1, 3, 4 and 7 advance a counter over a table. Chapter 7 also
  has a gate: the next passage can only be opened once the current one has
  been typed out letter by letter.
- Chapters 2, 5 and 6 grow a set of ids (ice broken, stars lit, shadows
  repelled). Chapter 5 also draws constellation lines between the lit
  stars.

This project models the state of each component as a Dafny class. The
click handlers, timers and effects that change that state are methods.
The derived views (visible prefix, current item, progress, lines, sizes)
are functions. Lemmas relate them to the tables and state what the
screens promise.

Layout: one module per source file, plus `Reveal`. `Reveal` holds the
counter-cursor arithmetic, the id-set helpers and the progress dots that
several chapters share.

Timers are modelled as methods the environment may call. A timer that an
effect only schedules under a condition gets that condition as a
`requires`. For example, `FinalTimerFires` requires the completion
condition. The `Valid()` invariant of each chapter class of chapters 2–7
therefore records that the final message only ever appears after
completion.

## Model

| member | source | states |
|---|---|---|
| Reveal.ClicksReach | src/components/Chapter1.jsx:75-80 | from a cursor within a table, k clicks that each advance by one while below the end reach exactly min(cursor + k, length) |
| Reveal.ClicksMonotone | src/components/Chapter4.jsx:251-256 | clicks never move the cursor back and never past the table's end |
| Reveal.Advance | src/components/Chapter1.jsx:75-80 | one click on a counter cursor: plus one while below the table length, unchanged at the end |
| Reveal.DotLit | src/components/Chapter1.jsx:344 | progress dot i is lit exactly when i is below the cursor |
| Reveal.LitCount | src/components/Chapter4.jsx:570-586 | the progress dots lit (`i < cursor`) among n dots number min(cursor, n) |
| Reveal.AddId | src/components/Chapter2.jsx:390-396 | copying a Set and adding an id only grows it, adds at most that id, changes nothing on a repeat and otherwise grows the size by one |
| Reveal.FullIffSize | src/components/Chapter2.jsx:370-377 | a sub-set of a finite id universe has at most its size and is the whole universe exactly when the sizes agree, which is why the `size === length` tests mean "all done" |
| Reveal.Interval | src/components/Chapter3.jsx:297-304 | the ids lo..lo+n-1 as a set of exactly n members |
| Reveal.Range | src/components/Chapter3.jsx:240 | the ids 0..n-1, the plates fallen after n beats |
| Reveal.NatToString | src/components/Chapter2.jsx:511 | the decimal rendering of a count is a non-empty string of digits, a single digit exactly below 10, and without a leading zero for a positive count |
| Reveal.NatToStringValue | src/components/Chapter2.jsx:511 | the digits printed for a count denote that count, read most significant digit first |
| App.RenderChapter | src/App.jsx:75-116 | indices 1..7 select the chapter with that number, and every other index selects the placeholder |
| App.ReceivesAdvance | src/App.jsx:76-92 | a rendered view is handed `goToNextChapter` exactly when it is one of chapters 1..6 |
| App.AfterComplete | src/App.jsx:76-92 | completing the shown chapter advances the index by one exactly for chapters 1..6, since chapter 7 gets no callback |
| App.CompletionsFromStart | src/App.jsx:48-92 | from any chapter, k completions reach chapter min(index + k, 7) |
| App.LastChapterIsTerminal | src/App.jsx:91-92 | once at chapter 7, no number of completions leaves it, and chapter 7 stays rendered |
| App.Sequencer.constructor | src/App.jsx:48 | the index starts at 1, which renders chapter 1 |
| App.Sequencer.Current | src/App.jsx:75-93 | within the invariant the rendered view is always a real chapter, never the placeholder |
| App.Sequencer.GoToNextChapter | src/App.jsx:59-60 | `goToNextChapter` increments the index by exactly one |
| App.Sequencer.CompleteCurrentChapter | src/App.jsx:76-92 | a chapter's completion moves to the following chapter only from 1..6, never backwards, and keeps the index within 1..7 |
| Chapter1.VisibleTexts | src/components/Chapter1.jsx:219 | the texts on screen are the first `revealedCount` entries of the table, in order |
| Chapter1.ContinueOffered | src/components/Chapter1.jsx:290 | the continue button is drawn exactly once every text is revealed |
| Chapter1.HintVisible | src/components/Chapter1.jsx:267 | the hint is drawn while its timer has fired and texts remain |
| Chapter1.ClickAppendsOneText | src/components/Chapter1.jsx:75-80 | a click appends exactly the next text at the end while texts remain, and changes nothing once all eight are shown |
| Chapter1.AfterClicks | src/components/Chapter1.jsx:65-80 | after k clicks the first min(k, 8) texts are shown, the continue button appears exactly from the eighth click on, and never together with the hint |
| Chapter1.Chapter.constructor | src/components/Chapter1.jsx:65-66 | nothing revealed and no hint at first |
| Chapter1.Chapter.HintTimerFires | src/components/Chapter1.jsx:68-73 | the hint timer only turns the hint on |
| Chapter1.Chapter.HandleClick | src/components/Chapter1.jsx:75-80 | a click advances the count by one and hides the hint while texts remain, and is a no-op at the end; the count stays within [0, 8] |
| Chapter2.BlockIds | src/components/Chapter2.jsx:39-75 | the block ids are 1..5, one per table entry |
| Chapter2.BlockIdsAreTableIds | src/components/Chapter2.jsx:39-75 | block i carries id i+1, so the id set is exactly the set of ids in `ICE_BLOCKS` |
| Chapter2.FinalScheduled | src/components/Chapter2.jsx:370-377 | the final-message timer is scheduled exactly when the broken set has the size of the table |
| Chapter2.CounterText | src/components/Chapter2.jsx:511-512 | the counter line: the broken count, " / 5", and " — Tout est libéré" when the count is five |
| Chapter2.CounterAnnouncesFreedomIff | src/components/Chapter2.jsx:511-512 | the counter ends with " — Tout est libéré" exactly when all five blocks are broken |
| Chapter2.CounterShowsCount | src/components/Chapter2.jsx:511 | the counter line starts with the digits of the broken count, followed by " / 5" |
| Chapter2.ClickBreaks | src/components/Chapter2.jsx:119-124 | a block calls `onBreak` exactly when its id is not yet broken |
| Chapter2.CoveredBlocks | src/components/Chapter2.jsx:480-488 | the blocks still under ice are exactly the table's blocks whose id is not broken |
| Chapter2.Covered | src/components/Chapter2.jsx:480-488 | filtering a block list by the broken set keeps exactly the unbroken blocks and never lengthens it |
| Chapter2.Chapter.constructor | src/components/Chapter2.jsx:350-355 | no block broken and no final message at first |
| Chapter2.Chapter.BreakIce | src/components/Chapter2.jsx:390-396 | `breakIce` adds the id to the broken set, and the set stays within the table's ids |
| Chapter2.Chapter.ClickBlock | src/components/Chapter2.jsx:119-124 | a click calls `onBreak` only for an unbroken block, so the size grows by one exactly when the block was not yet broken |
| Chapter2.Chapter.FinalTimerFires | src/components/Chapter2.jsx:370-377 | the final message appears only after every block is broken |
| Chapter2.Chapter.SizeBounded | src/components/Chapter2.jsx:370-377 | the broken set never holds more than five ids, and its size reaches five exactly when every block is broken |
| Chapter3.CurrentText | src/components/Chapter3.jsx:477-522 | the text under the heart is `HEARTBEATS[currentBeat-1]` exactly when 0 < currentBeat <= 6, and nothing otherwise |
| Chapter3.ArmorRemaining | src/components/Chapter3.jsx:312 | the remaining armour is 1 minus the fallen count over the six plates |
| Chapter3.AllDone | src/components/Chapter3.jsx:313 | the chapter is done once the beat reaches the number of heartbeats |
| Chapter3.HintVisible | src/components/Chapter3.jsx:530 | the hint is drawn while its timer has fired and the chapter is not done |
| Chapter3.FinalScheduled | src/components/Chapter3.jsx:272-280 | the final-message timer is scheduled exactly when all plates have fallen and every beat was played |
| Chapter3.PlateRendered | src/components/Chapter3.jsx:450 | a plate is drawn exactly while its id is not in the fallen set |
| Chapter3.CoupledConsequences | src/components/Chapter3.jsx:272-280 | while the fallen plates are 0..currentBeat-1, the fallen count equals the beat, a plate is still drawn iff its id is at least the beat, and the final-message condition holds iff the beat is 6 |
| Chapter3.ArmorFalls | src/components/Chapter3.jsx:312 | the remaining armour is 1 before any beat, 0 exactly after the sixth, stays in [0, 1] and strictly falls with every accepted click |
| Chapter3.Chapter.constructor | src/components/Chapter3.jsx:234-250 | no beat, no fallen plate, no text at first |
| Chapter3.Chapter.HintTimerFires | src/components/Chapter3.jsx:266-269 | the hint timer only turns the hint on |
| Chapter3.Chapter.HandleClick | src/components/Chapter3.jsx:289-306 | an accepted click drops the plate numbered by the current beat, advances the beat, shows that beat's text and hides the hint; clicks after the sixth beat change nothing; plates and beat stay coupled |
| Chapter3.Chapter.FinalTimerFires | src/components/Chapter3.jsx:272-280 | the final message appears only once all six plates have fallen and all six beats were played; nothing else changes |
| Chapter4.CurrentData | src/components/Chapter4.jsx:258-264 | no scene before the first click, otherwise `SCENES[currentScene-1]` |
| Chapter4.AllDone | src/components/Chapter4.jsx:258 | the chapter is done once the scene reaches the number of scenes |
| Chapter4.HintVisible | src/components/Chapter4.jsx:542 | the hint is drawn while its timer has fired and the chapter is not done |
| Chapter4.SilhouettesShown | src/components/Chapter4.jsx:418-441 | a scene without silhouettes shows none, hers shows exactly one, and the others show `silhouetteCount`, or 2 when it is missing (0) |
| Chapter4.SilhouetteLeft | src/components/Chapter4.jsx:108-109 | the silhouette with index i stands at one of the four positions, at `positions[i]` for the first four indices |
| Chapter4.SilhouetteLeftPeriodic | src/components/Chapter4.jsx:108-109 | index i stands where index i % 4 does, so the positions repeat every four silhouettes |
| Chapter4.SilhouettesNeverOverlap | src/components/Chapter4.jsx:108-109 | within every scene of the table, two different silhouettes stand at different positions |
| Chapter4.HerSceneIsUnique | src/components/Chapter4.jsx:34-90 | exactly one scene, the sixth, is hers, and it draws a single silhouette |
| Chapter4.ScenesAfterClicks | src/components/Chapter4.jsx:251-258 | after k clicks the scene shown is scene min(k, 7), and the chapter is done exactly from the seventh click on |
| Chapter4.Chapter.constructor | src/components/Chapter4.jsx:222-232 | no scene, no final message, no hint at first |
| Chapter4.Chapter.HintTimerFires | src/components/Chapter4.jsx:235-238 | the hint timer only turns the hint on |
| Chapter4.Chapter.HandleClick | src/components/Chapter4.jsx:251-256 | a click advances the scene by one, shows it and hides the hint while scenes remain, and is a no-op afterwards |
| Chapter4.Chapter.FinalTimerFires | src/components/Chapter4.jsx:241-246 | the final message appears only after every scene was shown; nothing else changes |
| Chapter5.FindStar | src/components/Chapter5.jsx:239 | `stars.find` by id returns nothing exactly when no star carries the id, and otherwise a star of the list with that id |
| Chapter5.FindStarFirst | src/components/Chapter5.jsx:239 | the star found is the first in list order that carries the id |
| Chapter5.StarTableShape | src/components/Chapter5.jsx:38-103 | star i of the table has id i+1 and connects only to the next id, 8 wrapping round to 1 |
| Chapter5.StarIds | src/components/Chapter5.jsx:38-103 | the star ids are 1..8, eight of them |
| Chapter5.StarIdsAreTableIds | src/components/Chapter5.jsx:38-103 | every table star's id is a star id, and star id x sits at index x-1 |
| Chapter5.ShapedIds | src/components/Chapter5.jsx:38-103 | in any table of that shape, ids run over 1..8 and id x sits at index x-1 |
| Chapter5.FindInShaped | src/components/Chapter5.jsx:329-330 | in any table of that shape the search finds a star exactly for ids 1..8, namely the one at index id-1 |
| Chapter5.FindInTable | src/components/Chapter5.jsx:329-330 | `STARS.find` finds a star exactly for the star ids, and it is the star at index id-1 |
| Chapter5.LookupStar | src/components/Chapter5.jsx:329-330 | an id names a star exactly when it is a star id, and then the star at index id-1 |
| Chapter5.LookupIsFind | src/components/Chapter5.jsx:329-330 | the direct lookup agrees with the linear search on every id, and the star found carries that id |
| Chapter5.Key | src/components/Chapter5.jsx:242 | a line key is the pair of the two ids in ascending order |
| Chapter5.KeyUnordered | src/components/Chapter5.jsx:241-243 | two connections have the same key exactly when they join the same two stars in either direction |
| Chapter5.ConstellationLines | src/components/Chapter5.jsx:227-256 | every line drawn joins two lit stars along a connection of the first to an existing second; every such connection has a line with its key; no two lines share a key |
| Chapter5.DrawStar | src/components/Chapter5.jsx:236-252 | walking a lit star's connections keeps those properties, keeps earlier keys, and gives every connection of this star between lit stars a line |
| Chapter5.DrawConnection | src/components/Chapter5.jsx:237-251 | one connection adds the line of that connection exactly when its target is lit, exists, and its key is not yet drawn; otherwise the lines are unchanged |
| Chapter5.AppendEdgeLine | src/components/Chapter5.jsx:244-250 | appending the line of a connection between lit stars keeps every line the line of such a connection |
| Chapter5.AppendNewKey | src/components/Chapter5.jsx:243-244 | appending a line whose key `lines.find` did not find adds exactly that key and keeps keys distinct |
| Chapter5.CycleKeyIn | src/components/Chapter5.jsx:38-103 | each star's connection key lies on the cycle 1-2, 2-3, …, 7-8, 1-8 |
| Chapter5.CycleKeyOf | src/components/Chapter5.jsx:38-103 | each cycle key is the connection key of some star |
| Chapter5.CycleKeysCount | src/components/Chapter5.jsx:38-103 | the cycle has eight different keys |
| Chapter5.EdgesOfFullSky | src/components/Chapter5.jsx:235-242 | with every star lit, each connection of star i is its single one, and its line carries the cycle key of i |
| Chapter5.FullSkyHasEdges | src/components/Chapter5.jsx:235-242 | with every star lit, each star's connection joins two lit, existing stars |
| Chapter5.KeysWithinCycle | src/components/Chapter5.jsx:235-252 | with every star lit, every line drawn carries a cycle key |
| Chapter5.CycleWithinKeys | src/components/Chapter5.jsx:235-252 | with every star lit, every cycle key is drawn |
| Chapter5.ShapedSkyDrawsCycle | src/components/Chapter5.jsx:227-256 | with every star lit, the keys drawn are exactly the eight keys of the cycle 1→2→…→8→1 |
| Chapter5.CycleLineCount | src/components/Chapter5.jsx:243-250 | lines with distinct keys that are the cycle's keys are exactly eight lines |
| Chapter5.FullSkyLines | src/components/Chapter5.jsx:227-256 | the chapter's own table with all eight stars lit draws exactly the eight lines of the cycle |
| Chapter5.Chapter.constructor | src/components/Chapter5.jsx:295-310 | no star lit, no memory text, no final message, no hint at first |
| Chapter5.Chapter.HintTimerFires | src/components/Chapter5.jsx:312-315 | the hint timer only turns the hint on |
| Chapter5.Chapter.ActivateStar | src/components/Chapter5.jsx:328-339 | an id that names no star changes nothing; a star id is added to the lit set (idempotently), its text is shown and the hint is hidden; the lit set stays within the star ids |
| Chapter5.Chapter.FinalTimerFires | src/components/Chapter5.jsx:318-323 | the final message appears only once every star is lit; nothing else changes |
| Chapter5.Chapter.Bounded | src/components/Chapter5.jsx:318-323 | at most eight stars are lit, and eight are lit exactly when every star is |
| Chapter5.FinalScheduled | src/components/Chapter5.jsx:318-323 | the final-message timer is scheduled exactly when the lit set has the size of the table |
| Chapter5.HintVisible | src/components/Chapter5.jsx:480 | the hint is drawn while its timer has fired and no star is lit yet |
| Chapter6.ShadowIds | src/components/Chapter6.jsx:32-80 | the shadow ids are 1..6, six of them |
| Chapter6.ShadowIdsAreTableIds | src/components/Chapter6.jsx:32-80 | shadow i carries id i+1, so the id set is exactly the set of ids in `SHADOWS` |
| Chapter6.LookupShadow | src/components/Chapter6.jsx:226-227 | `SHADOWS.find` by id finds a shadow exactly for the shadow ids, and it is the shadow at index id-1 with that id |
| Chapter6.ContainerSize | src/components/Chapter6.jsx:197-206 | the zone is 280 below width 480, 340 below 768, and 420 otherwise |
| Chapter6.ContainerSizeMonotone | src/components/Chapter6.jsx:197-206 | a wider screen never gets a smaller zone, and the zone is always one of the three sizes |
| Chapter6.LightIntensity | src/components/Chapter6.jsx:243 | the light intensity is the repelled count over the six shadows |
| Chapter6.AllDone | src/components/Chapter6.jsx:244 | the chapter is done once the repelled set has the size of the table |
| Chapter6.FinalScheduled | src/components/Chapter6.jsx:218-223 | the final-message timer is scheduled exactly when the repelled set has the size of the table |
| Chapter6.ShadowRendered | src/components/Chapter6.jsx:376 | a shadow is drawn exactly while its id is not repelled |
| Chapter6.HintVisible | src/components/Chapter6.jsx:421 | the hint is drawn while its timer has fired and no shadow is repelled yet |
| Chapter6.LightGrows | src/components/Chapter6.jsx:243-244 | the light intensity is 0 with nothing repelled, stays in [0, 1], grows strictly with each shadow, and is full exactly when all six are repelled |
| Chapter6.Chapter.constructor | src/components/Chapter6.jsx:180-194 | nothing repelled, no truth, no final message, no hint, and a 350 zone at first |
| Chapter6.Chapter.UpdateSize | src/components/Chapter6.jsx:197-206 | `updateSize` sets the zone from the window width and changes nothing else |
| Chapter6.Chapter.HintTimerFires | src/components/Chapter6.jsx:213-216 | the hint timer only turns the hint on |
| Chapter6.Chapter.RepelShadow | src/components/Chapter6.jsx:225-237 | an unknown id changes nothing; a shadow id is added to the repelled set (idempotently), that shadow is no longer drawn, its truth is shown and the hint is hidden |
| Chapter6.Chapter.FinalTimerFires | src/components/Chapter6.jsx:218-223 | the final message appears only once every shadow is repelled; nothing else changes |
| Chapter6.Chapter.Bounded | src/components/Chapter6.jsx:372-380 | at most six shadows are repelled; all six are exactly when the set is complete, and then no shadow is drawn |
| Chapter7.Typewriter.constructor | src/components/Chapter7.jsx:106-113 | a mounted typewriter shows no letter, its latch is unset, and it records whether an `onComplete` prop was passed |
| Chapter7.Typewriter.Visible | src/components/Chapter7.jsx:141 | the text on screen is always a prefix of the text, `displayedCount` letters long |
| Chapter7.Typewriter.CursorShown | src/components/Chapter7.jsx:144 | the blinking cursor is drawn while letters remain |
| Chapter7.Typewriter.Step | src/components/Chapter7.jsx:121-136 | each run adds one letter while letters remain; at the end the first run sets the latch and calls `onComplete` when one was passed, later runs do nothing, so `onComplete` fires at most once per text |
| Chapter7.Typewriter.SetText | src/components/Chapter7.jsx:115-119 | the effect on `text`, taken alone: a new text restarts from no letter with the latch unset |
| Chapter7.TypeOut | src/components/Chapter7.jsx:121-136 | running the timer chain of a fresh typewriter to its end shows the whole text and calls `onComplete` exactly once when it was passed, never otherwise |
| Chapter7.SkyProgress | src/components/Chapter7.jsx:277-282 | the sky is 0 before the first passage, the passage's table value while a passage shows, and 1 after the last |
| Chapter7.SkyTableRises | src/components/Chapter7.jsx:36-87 | the table's sky values lie strictly between 0 and 1 and rise strictly from passage to passage |
| Chapter7.SkyStep | src/components/Chapter7.jsx:277-282 | one more passage never darkens the sky, and strictly brightens it up to one past the last |
| Chapter7.SkyProgressMonotone | src/components/Chapter7.jsx:277-282 | the sky never darkens as the passage number grows, and stays in [0, 1] |
| Chapter7.CurrentData | src/components/Chapter7.jsx:284-287 | the passage shown is `PASSAGES[currentPassage-1]` exactly when 0 < currentPassage <= 10 |
| Chapter7.AllDone | src/components/Chapter7.jsx:289 | the chapter is done once past the last passage |
| Chapter7.HintVisible | src/components/Chapter7.jsx:479 | the hint is drawn while its timer has fired, passages remain and no text is being typed |
| Chapter7.Chapter.constructor | src/components/Chapter7.jsx:224-245 | no passage, typing counted as complete, nothing mounted, a night sky at first |
| Chapter7.Chapter.HintTimerFires | src/components/Chapter7.jsx:247-250 | the hint timer only turns the hint on |
| Chapter7.Chapter.HandleClick | src/components/Chapter7.jsx:264-271 | a click is ignored while typing or past the last passage; an accepted click advances the passage by one, closes the gate, hides the hint and mounts a fresh typewriter for the new passage; it is only accepted once the previous passage is fully typed; the passage stays within 0..11 |
| Chapter7.Chapter.TypewriterStep | src/components/Chapter7.jsx:458-462 | a typewriter step reopens the gate exactly when the passage has just been typed out, and keeps it open afterwards |
| Chapter7.Chapter.FinalTimerFires | src/components/Chapter7.jsx:253-258 | the final message appears only once past the last passage; nothing else changes |
| Chapter7.Chapter.OpenEnding | src/components/Chapter7.jsx:555-717 | the ending screen opens only from the final message; nothing else changes |
| Chapter7.Chapter.GateClosedWhileTyping | src/components/Chapter7.jsx:264-265 | while letters remain to be typed, the gate is closed and the hint is hidden |

## Left out

- Animation (framer-motion props, keyframes, exit transitions), CSS and gradient strings, and hover/tap effects are presentation with nothing to prove.
- `Math.random` placement of particles, stars, sand and shards, and the cos/sin placement of plates and shadows, are floating-point decoration.
- Float visual intensities derived from the modelled quantities are left out: halo opacities, the `GoldenParticles` count and the sun's position. `ArmorRemaining`, `LightIntensity` and `SkyProgress` are kept as exact reals.
- Timer durations (3000, 2000 and 1500 ms, the typewriter's 55 ms) and timer cancellation are left out. A scheduled timer is a method the environment may call while its effect's condition holds.
- The tsparticles snow engine and its configuration, `console.log`, `window.scrollTo`, and the `resize` listener plumbing are left out. `updateSize` is kept as `Chapter6.Chapter.UpdateSize`, with the width as a parameter.
- `src/main.jsx` only mounts the DOM and is not part of this model.
- React's batching and re-rendering are left out. Each handler's state updates are modelled as applied together, in order, before the next event.
- The pulsing flag of chapter 3 (`isPulsing`) and the never-read `showIntro` of chapter 2 are left out: both are cosmetic.
- Chapter5.Key: the key `[a, b].sort().join("-")` is modelled as the ordered pair of ids. JavaScript's `sort` compares the ids as strings, which agrees with numeric order for the one-digit ids 1..8 of the table.
- Chapter5.LookupStar and Chapter6.LookupShadow: `find` is modelled as a direct index. This relies on entry i carrying id i+1. For stars, `Chapter5.LookupIsFind` proves the direct index agrees with the linear search.
- The plain counters "n / 8 souvenirs" (chapter 5) and "n / 6 voix repoussées" (chapter 6) are left out. They are the set size printed as in chapter 2, whose counter is modelled.
- Chapter6.ContainerSize: a window width is a JavaScript number; the model takes an integer width.
- Chapter7.Typewriter.SetText: a text change on a mounted typewriter is modelled as the `[text]` effect alone. In the source the count effect runs again in the same commit while it still sees the old count. When that count is at least the new length, it sets the latch again and calls `onComplete` before any letter of the new text is typed, and typing the new text then calls nothing. The model does not capture this: its invariant ties a set latch to a fully typed text. The chapter never changes the text of a mounted typewriter, since each passage is keyed and mounts a fresh one.
- Chapter7.Typewriter: JavaScript's `text.length` and `text.slice` count UTF-16 code units, while a Dafny string counts Unicode characters. The two differ on a text holding a character outside the Basic Multilingual Plane, in the length and in the visible prefix. The ten passages of the table hold no such character.
