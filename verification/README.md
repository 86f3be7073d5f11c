# thanhtai.dev — a Dafny model of the portfolio's logic

This project models the logic of the thanhtai.dev portfolio site: a React
front end with an Express comments API. The parts modelled are:

- the cursor-follower canvas: tentacle chains of segments, a core point that
  eases toward the pointer or follows a figure-eight idle path, and the
  per-frame update;
- the starfield background: star count from the viewport area, star
  placement, twinkle, and the frame clock;
- the comments API: relative timestamps, listing, and posting with
  validation and trimming;
- the seed script that guarantees the owner's pinned comment;
- the main page's comments panel: loading with a pinned fallback, posting,
  and splitting the list into pinned, visible and scrollable comments;
- the project hashtags;
- the contact form used on the main page and on the Contact page: its
  validation with the email pattern, and its submit handler;
- the laptop "coding screen" typing animation and the `useTypingEffect`
  hook;
- the timeline's keyword icon choice and alternating layout;
- the Skills page's group-by;
- the loading screen's progress bar.

One Dafny module stands for each source file:

| module | models |
|---|---|
| `Chain`, `Geometry` | `src/components/CanvasOverlay.tsx`: segments and tentacles |
| `Overlay` | `src/components/CanvasOverlay.tsx`: listeners, animation loop, resize |
| `Starfield` | `src/components/AnimatedBackground.tsx` |
| `Comments`, `CommentsApi` | `backend/routes/comments.js` |
| `Seed` | `backend/prisma/seed.js` |
| `MainPage` | `src/pages/MainPage.tsx` |
| `Forms`, `Contact` | `src/pages/Contact.tsx` and the identical form logic in `src/pages/MainPage.tsx` |
| `CodingScreen` | `src/components/CodingScreen.tsx` |
| `TypingEffect` | `src/hooks/useTypingEffect.ts` |
| `Timeline` | `src/components/TimelinePro.tsx` |
| `Skills` | `src/pages/Skills.tsx` |
| `Loading` | `src/components/LoadingScreen.tsx` |
| `Common`, `Text` | shared helpers: `Option`, `filter`, JavaScript white space, `trim`, `toLowerCase`, `includes`, number-to-text |

Things outside the program become parameters:

- **Browser and math primitives.** `Math.cos`, `Math.sin`, `Math.atan2` and
  `Math.sqrt` are function-valued fields of `Geometry.Numerics`. Where a
  proof needs a property of them, it is a named hypothesis:
  - `PiShift`: cos(a − π) = −cos a and sin(a − π) = −sin a;
  - `SineBounded`: sin stays in [−1, 1].
- **Random draws.** `Math.random()` results are inputs in [0, 1).
- **Clocks.** `Date.now()` and `new Date()` become integer milliseconds.
  The creation time the database stamps on a new comment and the clock
  the route reads when formatting it are separate parameters.
- **Database.** Its results are inputs: a query succeeds with rows or
  fails.
- **Timers.** A timer or an animation frame becomes a discrete event.
  Examples are the 50 ms tick, a reset timeout firing, and a typing timer
  firing.
- **Locale dates.** `toLocaleDateString` is an opaque function parameter.

Behaviours of the code worth knowing:

- The device-pixel ratio is used as given. It is not capped, and only a
  zero ratio is replaced by 1.
- The canvas's idle clock is reset to 0 only when pointer tracking stops,
  by a leave event or the pointer leaving the viewport. It is not reset when
  tracking starts.
- The starfield gradient spans the backing-store (device-pixel) size of the
  canvas, not its CSS size.

## Model

| member | source | states |
|---|---|---|
| Geometry.ProjectBack | src/components/CanvasOverlay.tsx:72-78 | Projecting back along the opposite direction returns to the start point, under the cos/sin half-turn identity. This is why an updated segment's far end lands on its target. |
| Chain.NewSegment | src/components/CanvasOverlay.tsx:47-70 | A new segment sits at its anchor with the given length and angle, and its far end is `length` away along `angle`. |
| Chain.Update | src/components/CanvasOverlay.tsx:72-78 | `update` turns the segment toward the target, sets the anchor one length back from the target along the new angle, and keeps the segment consistent. |
| Chain.UpdateLandsOnTarget | src/components/CanvasOverlay.tsx:72-78 | After `update`, the segment's far end is exactly the target. |
| Chain.Fallback | src/components/CanvasOverlay.tsx:80-85 | `fallback` moves the anchor to the given point, keeps the angle and length, and recomputes the far end. |
| Chain.FallbackIdempotent | src/components/CanvasOverlay.tsx:80-85 | Falling back twice is the same as falling back once, to the last point. |
| Chain.NewTentacle | src/components/CanvasOverlay.tsx:97-112 | The constructor builds `segmentCount` segments of length `length / segmentCount`, all at the initial angle, each starting at the previous one's far end from the origin. |
| Chain.ShapedPathLength | src/components/CanvasOverlay.tsx:97-112 | The segments of a tentacle together are exactly the tentacle's length long. |
| Chain.ReaimChain | src/components/CanvasOverlay.tsx:129-131 | The tail-to-head pass updates the last segment toward the aim point and every other segment toward the anchor of the segment after it. |
| Chain.ReaimedIsBackwardLinked | src/components/CanvasOverlay.tsx:129-131 | After the pass, the last far end is the aim point and each far end is the next segment's anchor. |
| Chain.FallbackChain | src/components/CanvasOverlay.tsx:134-139 | The head-to-tail pass re-anchors the first segment at the origin and every other segment at the previous segment's far end. |
| Chain.FellBackIsForwardLinked | src/components/CanvasOverlay.tsx:134-139 | After the pass, the chain starts at the origin and is linked, and every angle is unchanged. |
| Chain.Move | src/components/CanvasOverlay.tsx:114-140 | `move` keeps every tentacle field and the chain's shape. The aim point is the offset point, or the target itself when the offset point's x is 0 (falsy). A taut chain is re-aimed at the aim point. A slack chain is re-aimed and then laid out again from its origin, linked from there. |
| Chain.Bucket | src/components/CanvasOverlay.tsx:153-169 | Colour choice: accent iff rand < 0.05. Otherwise near, mid or far by distance ratio < 0.33, < 0.66 or above, and far when the ratio is NaN. |
| Chain.BucketMonotone | src/components/CanvasOverlay.tsx:153-169 | A larger distance ratio never gives a nearer colour. |
| Chain.Show | src/components/CanvasOverlay.tsx:142-178 | A tentacle is stroked iff its origin is within `length` of the target, with width 2·rand and the bucketed colour. |
| Chain.ShowParticle | src/components/CanvasOverlay.tsx:180-193 | The particle is centred on the origin. Its radius is 2·rand, plus 1 when the origin is within `length` of the target. |
| Chain.ParticleNearIffStroked | src/components/CanvasOverlay.tsx:142-193 | The particle is enlarged exactly when the tentacle is stroked. |
| Chain.InitTentacles | src/components/CanvasOverlay.tsx:196-206 | `count` tentacles, the i-th built from the i-th draws: at (rx·width, ry·height), length 250·rlength + 50 (so in [50, 300)), `rand` = rrand, 30 segments all at the starting angle 2·rangle·π (in [0, 2π)), and a well-formed chain. |
| Overlay.Mount | src/components/CanvasOverlay.tsx:255-259 | At mount the core and the previous core are the viewport centre, the clock is 0 and the page is visible. In a viewport at least 100 px each way, the core starts inside the 50-px inset box that `StepCore` keeps it in. |
| Overlay.Handle | src/components/CanvasOverlay.tsx:243-274 | Mouse move records and tracks the pointer. Mouse leave, or a document leave without a related target, stops tracking and zeroes the clock. A document leave with a related target changes nothing. Visibility follows `document.hidden`. |
| Overlay.ClampMaxMin | src/components/CanvasOverlay.tsx:311-312 | `max(50, min(hi, v))` is at least 50, at most `hi` when 50 ≤ hi, and `v` when `v` is already in range. |
| Overlay.ClampIfElse | src/components/CanvasOverlay.tsx:313-367 | The idle clamp lies in [50, hi] when 50 ≤ hi, is `v` in range, and is 50 below it. |
| Overlay.StepCore | src/components/CanvasOverlay.tsx:294-367 | Tracking stops when the pointer leaves the viewport. The clock holds while tracking, restarts at 0.003 when tracking just stopped, and otherwise advances by 0.003. The core stays in the 50-px inset box. The core eases 1/10 toward the pointer, or toward the figure-eight target at rate 1/15 inside the box and 1/20 outside, when the clamp does not intervene. |
| Overlay.RecenteringApproaches | src/components/CanvasOverlay.tsx:313-367 | Outside the box while idle, the core never moves farther from the centre on either axis. |
| Overlay.Frame | src/components/CanvasOverlay.tsx:278-392 | A hidden frame changes nothing. A visible frame steps the core, moves every tentacle from the previous core toward the new core, and records the new core as the previous one. Every chain stays well formed. |
| Overlay.LeaveRestartsPattern | src/components/CanvasOverlay.tsx:248-253 | After a leave event, the next visible frame's clock reads exactly one step. |
| Overlay.ExitRestartsPattern | src/components/CanvasOverlay.tsx:294-300 | A pointer outside the viewport restarts the idle pattern just as a leave event does. |
| Overlay.Resize | src/components/CanvasOverlay.tsx:220-233 | A resize keeps the controller and replaces the tentacles with 500 new, well-formed ones placed in the new viewport, each with the position, length, `rand` and angle its draws give. |
| Starfield.EffectiveDpr | src/components/AnimatedBackground.tsx:41 | `devicePixelRatio \|\| 1` is positive, and it is the ratio itself unless that is 0. |
| Starfield.StarCount | src/components/AnimatedBackground.tsx:27 | The star count is the floor of the logical area over 15000, and never negative. |
| Starfield.MakeStar | src/components/AnimatedBackground.tsx:30-36 | A star lies inside the logical viewport, with size in [0, 1.5), opacity in [0, 1) and phase in [0, 2π). Each field is its draw scaled as the code scales it: x by the logical width, y by the logical height, size by 1.5, phase by π·2, opacity taken as drawn. |
| Starfield.CreateStars | src/components/AnimatedBackground.tsx:24-38 | Exactly `StarCount` stars are created, every one in range, and star i is built from draw i. |
| Starfield.Resize | src/components/AnimatedBackground.tsx:40-53 | The backing store is the CSS size times the ratio, cut to whole pixels. The gradient spans the backing store. The star count is computed from the backing store divided by the ratio. The old stars are replaced: star i is built from draw i within that logical size, and lies in range there. The clock is kept. |
| Starfield.TwinkleBounds | src/components/AnimatedBackground.tsx:68 | The twinkle factor `sin(·)·0.3 + 0.7` stays in [0.4, 1]. |
| Starfield.AlphaBounds | src/components/AnimatedBackground.tsx:69 | A star's drawn alpha lies between 0 and its opacity. |
| Starfield.FramesAdvanceClock | src/components/AnimatedBackground.tsx:75 | After n frames the clock has advanced by n·0.01 and nothing else has changed. |
| CommentsApi.Classify | backend/routes/comments.js:9-17 | The age bands. "Just now" is under a minute. Then 1–59 whole minutes, 1–23 whole hours and 1–6 whole days, each the floor of the difference. An absolute date from 7 days on. |
| CommentsApi.ClassifyMonotone | backend/routes/comments.js:14-19 | An older comment never gets a finer-grained label. |
| CommentsApi.SingularOnlyForOne | backend/routes/comments.js:15-17 | The singular unit appears exactly when the count is 1. |
| CommentsApi.RecentIsJustNow | backend/routes/comments.js:14 | A comment less than a minute old reads "Just now". |
| CommentsApi.Get | backend/routes/comments.js:27-51 | A failed query answers 500. Otherwise there is one record per row, in row order, with id, name, message, pin and photo copied and the timestamp formatted. |
| CommentsApi.Normalise | backend/routes/comments.js:63-69 | The stored name and message are trimmed. The photo is kept only when truthy, and the pin is set only when `true`. |
| CommentsApi.Post | backend/routes/comments.js:54-84 | 400 iff name or message is missing or empty before trimming; 500 iff the insert fails. Otherwise exactly one normalised row is appended, carrying the database's creation stamp. The 201 record formats that stamp against the route's clock, so it says "Just now" when read within a minute. Error answers leave the store unchanged. |
| CommentsApi.BlankNameStoredEmpty | backend/routes/comments.js:58-66 | A white-space-only name passes the 400 guard and is stored as the empty string. |
| Seed.SeedStore | backend/prisma/seed.js:9-38 | When a database call throws, the store is unchanged. Otherwise the store is unchanged when a pinned comment by the owner exists, exactly the owner's pinned comment is appended when none does, and one exists afterwards. |
| Seed.SeedIdempotent | backend/prisma/seed.js:9-38 | After a successful run, another run changes nothing, whatever its outcome. After a failed run, the next run acts as a first run. |
| Forms.EmailShapeIffPattern | src/pages/Contact.tsx:45 | The executable shape check agrees with `/^[^\s@]+@[^\s@]+\.[^\s@]+$/` on every string. |
| Forms.Validate | src/pages/Contact.tsx:36-57 | Name error iff the trimmed name is empty. Email "required" iff the trimmed email is empty, else "invalid" iff the untrimmed email fails the pattern. Message "required" iff the trimmed message is empty, else "too short" iff it is under 10 characters. Each error uses its page's text. |
| Forms.AcceptedIff | src/pages/Contact.tsx:55-56 | A form is accepted exactly when all three field conditions hold. |
| Forms.AcceptanceIgnoresTexts | src/pages/MainPage.tsx:312-327 | Whether a form is accepted does not depend on the language of the error texts. |
| Forms.SurroundingSpaceIsInvalid | src/pages/Contact.tsx:43-47 | An email with leading white space is rejected as invalid, because the pattern is matched against the untrimmed text. |
| Forms.HandleSubmit | src/pages/Contact.tsx:59-74 | Submit records the errors. With errors, it stops and leaves the form. Otherwise it clears the form and shows success. |
| Forms.SuccessReturnsToInitial | src/pages/Contact.tsx:69-73 | An accepted submission, once the success banner times out, leaves the form exactly as first rendered: empty, without errors, idle. |
| Forms.ClearedFormIsRejected | src/pages/Contact.tsx:36-57 | Submitting the cleared form again reports all three fields as required. |
| Contact.Submit | src/pages/Contact.tsx:59-74 | The Contact page's submit uses the Vietnamese texts, with the same reset behaviour. |
| Contact.SameFormsAccepted | src/pages/MainPage.tsx:329-338 | The Contact page and the main page accept and reset exactly the same forms. |
| MainPage.DefaultPinned | src/pages/MainPage.tsx:187-194 | The local fallback comment is the owner's pinned comment with id "default-pinned", dated today. |
| MainPage.LoadComments | src/pages/MainPage.tsx:196-219 | After loading, an owner comment is always present and loading is off. The fetched list is kept when it has one. Otherwise the fallback is put in front. On a failed fetch the fallback is the only comment. |
| MainPage.ReloadIsStable | src/pages/MainPage.tsx:196-219 | Reloading the shown list changes nothing, so the fallback is added at most once. |
| MainPage.SeededListNeedsNoFallback | src/pages/MainPage.tsx:200-212 | Once a seeding run has succeeded, a successful listing is shown as is. Nothing is claimed when the seeding failed. |
| MainPage.Payload | src/pages/MainPage.tsx:221-247 | Nothing is sent when the trimmed name or message is empty or a post is in flight. Otherwise the trimmed fields are sent, unpinned, with the uploaded photo URL, or null when there is no photo or the upload failed. |
| MainPage.BeginSubmit | src/pages/MainPage.tsx:221-247 | A guarded submit changes nothing and sends nothing. Otherwise the busy flag is set, the payload is sent, and the comment list of that moment is captured. |
| MainPage.FinishSubmit | src/pages/MainPage.tsx:248-260 | When the post settles: a failure only clears the busy flag. A created comment goes in front of the captured list, and the inputs, photo and preview are cleared, whatever happened in between. |
| MainPage.SecondSubmitIgnored | src/pages/MainPage.tsx:224-227 | While a post is in flight, another submit is a no-op. |
| MainPage.SuccessDiscardsInterimChanges | src/pages/MainPage.tsx:250-251 | Text typed while the post is pending is cleared by its success, and a list loaded meanwhile is replaced by the captured list with the new comment in front. |
| MainPage.SubmitComment | src/pages/MainPage.tsx:221-260 | With nothing happening while the post is pending: a guarded submit is a no-op, a failed post only clears the busy flag, and a created comment goes first with the inputs and photo cleared. |
| MainPage.PayloadAccepted | src/pages/MainPage.tsx:242-247 | The page's payload is never rejected by the API's 400 guard. The stored name and message are the page's trimmed inputs, unpinned. |
| MainPage.PanelShowsEachOnce | src/pages/MainPage.tsx:1140-1143 | Visible plus scrollable is exactly the regular list, with at most 2 visible. Pinned, visible and scrollable together hold every comment exactly once. |
| MainPage.OwnerIsPinned | src/pages/MainPage.tsx:1101-1123 | An owner comment anywhere in the list appears in the pinned section with the Admin label. |
| MainPage.LoadedPanelShowsAdmin | src/pages/MainPage.tsx:1093-1123 | After any load, the pinned section shows an Admin-labelled comment. |
| MainPage.Hashtag | src/pages/MainPage.tsx:624 | A hashtag has no white space, is lower-cased, and is no longer than the name. |
| MainPage.HashtagOfWord | src/pages/MainPage.tsx:624 | A name without white space hashes to its lower-cased self; with the next row this fixes the hashtag of every name. |
| MainPage.HashtagIgnoresSpacing | src/pages/MainPage.tsx:624 | White space inserted into a technology name does not change its hashtag. |
| MainPage.HashtagIdempotent | src/pages/MainPage.tsx:624 | A hashtag is its own hashtag. |
| CodingScreen.Type | src/components/CodingScreen.tsx:36-49 | A character tick shows the current line up to the next character and advances the cursor. At the end of a line, the line index advances and the character index resets. |
| CodingScreen.TickAsWritten | src/components/CodingScreen.tsx:32-58 | The interval callback as written: past the last line, every tick schedules one more reset. |
| CodingScreen.Tick | src/components/CodingScreen.tsx:50-57 | The corrected callback: past the last line, a tick schedules a reset unless one is pending. |
| CodingScreen.Fire | src/components/CodingScreen.tsx:52-56 | A firing reset clears the screen and both cursors. |
| CodingScreen.TicksConsistent | src/components/CodingScreen.tsx:33-49 | Ticks keep the cursors in bounds. Every non-empty earlier line is shown in full, the current line up to the cursor, and an empty line is never written. |
| CodingScreen.TicksToFinish | src/components/CodingScreen.tsx:33-49 | The remaining tick count is exactly the number of ticks until the last line is done. |
| CodingScreen.CycleLength | src/components/CodingScreen.tsx:4-49 | From the blank screen, Σ\|line\| + number-of-lines ticks type the whole listing, with every non-empty line shown in full. |
| CodingScreen.FinishedTickWaits | src/components/CodingScreen.tsx:50-57 | After the last line, a tick leaves the cursors and the screen unchanged, with exactly one reset pending. |
| CodingScreen.DisciplineKept | src/components/CodingScreen.tsx:50-57 | In the corrected screen, at most one reset is pending, and only after typing finished. |
| CodingScreen.ResetsPileUp | src/components/CodingScreen.tsx:50-57 | As written, n ticks after the last line leave n more resets pending. |
| CodingScreen.SecondResetErasesTyping | src/components/CodingScreen.tsx:50-57 | As written, the second pending reset erases a character typed after the first. The corrected screen keeps it. |
| TypingEffect.Effect | src/hooks/useTypingEffect.ts:8-34 | Speed 0 arms no timer and resets to "", typing, when the previous speed was not 0. A switch from 0 to a positive speed resets to "". The last speed is always recorded. A timer is armed only for a shown text shorter than the text, and it will show one more character. Typing turns off only when the shown text is already complete, or stays off when it was off. |
| TypingEffect.EffectKeepsGood | src/hooks/useTypingEffect.ts:20-33 | For a fixed text, the shown text stays a prefix of it, and each timer extends it by exactly one character. Nothing is shown after speed 0, and typing is over only when everything is shown. |
| TypingEffect.ZeroSpeedTypesNothing | src/hooks/useTypingEffect.ts:9-17 | At speed 0 no character is added. |
| TypingEffect.RevealCompletes | src/hooks/useTypingEffect.ts:26-33 | At a positive speed, one effect-and-timer round per missing character reveals the whole text and ends typing. |
| Timeline.GetIcon | src/components/TimelinePro.tsx:19-36 | The icon of the first keyword, in the order foundation, fundamental, junior, modern, found in the lower-cased title. With none found, the default for index mod 4. |
| Timeline.CaseInsensitive | src/components/TimelinePro.tsx:27 | Lower-casing the title first changes nothing. |
| Timeline.EarlierKeywordWins | src/components/TimelinePro.tsx:28-31 | A title holding two keywords never gets the later keyword's icon. |
| Timeline.KeywordIgnoresPosition | src/components/TimelinePro.tsx:28-35 | With a keyword match, the position is irrelevant. |
| Timeline.FoundationalJuniorGetsCap | src/components/TimelinePro.tsx:19-31 | "Junior Front-end Development (Foundational Stage)" gets the graduation cap, not the briefcase. |
| Timeline.Render | src/components/TimelinePro.tsx:41-71 | Absent or empty items render nothing. Otherwise there is one card per item, in order, with its icon, on the left exactly at even indices. |
| Timeline.SidesAlternate | src/components/TimelinePro.tsx:70 | The first card is on the left and neighbouring cards alternate sides. |
| Skills.Add | src/pages/Skills.tsx:48-51 | The reducer appends the skill to its category's group, creating the group as the last key when missing, and leaves the other groups alone. |
| Skills.GroupByIsReference | src/pages/Skills.tsx:47-53 | The fold yields one group per category present, in order of first appearance, each holding exactly that category's skills in their original order. |
| Skills.GroupingKeepsCount | src/pages/Skills.tsx:47-53 | The groups together hold exactly as many skills as the list. |
| Skills.GroupsNonEmpty | src/pages/Skills.tsx:48-51 | No group is empty, and a category has a group iff some skill has it. |
| Skills.CatalogGroups | src/pages/Skills.tsx:13-67 | The page lists Frontend, Backend, Database, then Tools & Others. |
| Loading.TotalAssets | src/components/LoadingScreen.tsx:12 | `images.length \|\| 1` is never 0. |
| Loading.TimeProgress | src/components/LoadingScreen.tsx:17 | The time share lies in [0, 10] for elapsed ≥ 0, is below 10 before 1800 ms, and is exactly 10 from then on. |
| Loading.AssetProgress | src/components/LoadingScreen.tsx:16 | The asset share lies in [0, 90]: 0 with nothing loaded, 90 with everything loaded. |
| Loading.Progress | src/components/LoadingScreen.tsx:15-20 | The reported progress never exceeds 100, and lies in [0, 100] for valid counts and elapsed ≥ 0. |
| Loading.NoImagesTimeOnly | src/components/LoadingScreen.tsx:11-18 | With no images, the interval shows only the time share, at most 10, before the final 100. |
| Loading.ProgressMonotone | src/components/LoadingScreen.tsx:15-20 | More time or more loaded assets never lower the bar. |
| Loading.Remaining | src/components/LoadingScreen.tsx:46-48 | The remaining wait is never negative, and with it the loading lasts at least 1800 ms. |
| Loading.DoneMeansFull | src/components/LoadingScreen.tsx:15-20 | Everything loaded after the minimum time gives exactly 100. |
| Text.TrimEmptyIff | src/pages/Contact.tsx:39-41 | `s.trim()` is empty exactly when `s` is all white space. |
| Text.TrimIdempotent | backend/routes/comments.js:65-66 | Trimming trimmed text changes nothing. |
| Text.Includes | src/components/TimelinePro.tsx:29 | `includes` holds exactly when the key occurs as a contiguous run. |
| Text.NatToStringRoundTrip | backend/routes/comments.js:15-17 | The decimal text of a count reads back as the count. |

## Left out

- Drawing (canvas paths, gradients' colour stops, `rgba` strings), React rendering, styling and animation libraries are not modelled; only the values they are given are.
- Timers and React scheduling: `setTimeout`/`setInterval`/`requestAnimationFrame` become discrete events; React's batching is modelled only where it matters (the typing hook's effect applies all its state updates together). The coding screen's `setDisplayedCode` updater is applied when dispatched. The contact forms' simulated one-second send is collapsed into the submit step; the comment submit is split at its awaits into a start and a settling step.
- MainPage.BeginSubmit: the photo upload runs after the busy flag is set and is awaited before the post; the model takes its outcome as part of the panel's photo, fixed when the submit starts.
- Photo upload (`uploadImage`, Cloudinary), `alert`, `console` output, `FileReader` previews and the network are outside the model; the upload's outcome is an input.
- The database's ordering (`isPinned` desc, `createdAt` desc) is not modelled: `CommentsApi.Get` takes the rows in the order the database returns them and keeps that order.
- CommentsApi.Get: every record's timestamp is computed with one shared `now`, whereas the handler reads the clock once per row.
- CommentsApi.Classify: `Math.floor(diffMs / k)` on JavaScript doubles is modelled as exact integer division of whole milliseconds; invalid dates (NaN differences) are not modelled.
- CommentsApi.Post: name, message and profilePhoto are strings or absent and isPinned is a boolean or absent; other JSON types (a non-string name or message makes `trim` throw, a non-boolean `isPinned` fails at the database, and both answer 500) are not modelled.
- Starfield.Resize: the canvas's conversion of `width * dpr` to a 32-bit unsigned integer is modelled as the floor; sizes of 2^32 pixels and more are not modelled.
- Seed.SeedStore: a failed run is modelled only by its effect on the store; the error log, the exit status 1 and the disconnect are not modelled.
- Text.Lower: only ASCII letters are lower-cased, unlike `toLowerCase`.
- Forms.Validate: string lengths count characters, not UTF-16 code units, so the 10-character minimum on the trimmed message (src/pages/Contact.tsx:51, src/pages/MainPage.tsx:322) is not modelled for characters outside the Basic Multilingual Plane, which JavaScript counts as two.
- Chain.NewTentacle: requires `segmentCount > 0`; the source divides by it, and every caller passes 30.
- Floating-point rounding is not modelled: coordinates, angles and progress are exact reals.
- Chain.Move and Overlay.Frame: the trigonometric functions are parameters, so properties that depend on their values hold under the stated hypotheses (`PiShift`, `SineBounded`) rather than for `Math` itself.
- The loading screen's `isComplete` fade-out (a 300 ms timer) and the navigation, layout and intersection-observer hooks are presentation only.

## Findings

| source | as written | input that shows it | evidently intended | confidence | as-written member | corrected member |
|---|---|---|---|---|---|---|
| src/components/CodingScreen.tsx:50-57 | every 50 ms tick after the last line schedules another 3 s reset, so about sixty resets are pending and each one wipes the restarted animation | the finished screen followed by tick, tick, reset fires, tick, reset fires: the character typed after the first reset is erased by the second | one reset 3 s after the listing is complete, then typing starts over undisturbed | high (not executed) | CodingScreen.TickAsWritten, CodingScreen.ResetsPileUp, CodingScreen.SecondResetErasesTyping | CodingScreen.Tick, CodingScreen.DisciplineKept |
