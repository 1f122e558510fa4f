# Vigilance dashboard: camera-card state machine and camera tile, in Dafny

This project models the client-side logic of the "Vigilance" home-security
dashboard, a web front end that lists mock camera feeds. Two source files hold
that logic:

- `app/dashboard/page.tsx`, the dashboard page. It has the tap state machine
  that expands and focuses camera cards. The state is a set of expanded camera
  ids and at most one focused id. It also has the presence toggles (the active
  user and whether the other user is online), the video-state counter that
  switches between day and night recordings, and the user list derived from
  them. The camera list sets each card's height variant and green-screen flag.
- `components/CameraFeed.tsx`, the camera tile. It picks one of three height
  classes from the focus and expansion props. It picks a recording from the
  camera id and the video state, and turns autoplay off for the black
  recording. It also draws a film-grain overlay: each frame that passes a 33 ms
  throttle fills a 320x180 RGBA tile with grey noise.

Modules and files:

- `wrappers.dfy`: `Wrappers.Option`, used for `null` and `undefined`.
- `js_number.dfy`: `JsNumber`. JavaScript's truncating `%` and `parseInt`
  without a radix, following section 19.2.5 of ECMAScript: skip white space,
  read an optional sign, switch to hexadecimal after `0x`, read the longest
  digit prefix, and return NaN when there are no digits.
- `camera_feed.dfy`: `CameraFeed`. The height class, the video source, the
  autoplay rule, the grain tile fill (an imperative loop over a fresh byte
  array) and the `GrainAnimation` class, which holds the throttle's `lastTime`.
- `dashboard.dfy`: `Dashboard`. The tap machine as a pure function `Tap`, plus
  the reachability invariant proved over any run of taps. The page's state
  hooks are the class `DashboardState`. Its `HandleCameraTap` follows the
  source branch for branch and is proved equal to `Tap`. The module also holds
  the user list, the video-state counter and the camera list.

Where the comments and the code disagree, the model follows the code. The
comments at `components/CameraFeed.tsx:17` and `app/dashboard/page.tsx:15`
call video state 1 "day", but `components/CameraFeed.tsx:169` picks the night
recordings for states 1 and 2. `CameraFeed.VideoList` states the code's
behaviour.

Two points about the tap machine. Tapping an unexpanded, unfocused short card
clears the focus of whatever card held it. Tapping an expanded, unfocused full
card leaves the focus where it was. Every other tap either moves the focus to
the tapped card or clears it.

## Model

| member | source | states |
|---|---|---|
| `Dashboard.Tap` | app/dashboard/page.tsx:93-131 | Every tap changes the tapped card's (expanded, focused) view, so no tap is a no-op for either variant. Only the tapped id can enter or leave the expanded set. The new focus is none, the tapped card, or the old focus. Tapping an unexpanded, unfocused short card clears the focus. |
| `Dashboard.TapKeepsCardsReachable` | app/dashboard/page.tsx:98-130 | If every card's view is reachable for its variant before a tap, it still is after. A focused short card is expanded. A focused full card is not. |
| `Dashboard.TapCycleReturns` | app/dashboard/page.tsx:98-130 | Three taps on one card, from any reachable view, return the card to its view and the expanded set to what it was. If no other card held the focus, the whole tap state is restored. |
| `Dashboard.TapCycleHeightsDistinct` | components/CameraFeed.tsx:174-179 | Along a card's three-tap cycle, its tile gets three different class names (`h-32`, `h-48`, `h-64` in some order), for both variants. |
| `Dashboard.TapPreservesFocusConsistent` | app/dashboard/page.tsx:93-131 | A tap from a listed card, made with that card's own variant, keeps the invariant. The invariant: every listed card's view is reachable, and only listed cards are expanded or focused. |
| `Dashboard.RunPreservesFocusConsistent` | app/dashboard/page.tsx:93-131 | Any sequence of such taps keeps the invariant. |
| `Dashboard.ReachableDashboard` | app/dashboard/page.tsx:325-340 | From the initial state (nothing expanded, no focus), after any taps on the page's cards: a focused short card is expanded, a focused full card is not, and at most one tile is at `h-64`. |
| `Dashboard.CameraIds` | app/dashboard/page.tsx:154-164 | The camera ids are the numerals 1 to 9 in list order, so they are distinct. |
| `Dashboard.ShowGray` | app/dashboard/page.tsx:154-164 | The green-screen flag is on for cameras 2 and 3 exactly in video state 2, and for camera 5 exactly in state 4. Every other camera's flag is always off. |
| `Dashboard.DashboardVideoSources` | components/CameraFeed.tsx:164-172 | The i-th listed camera plays entry `(i + 1) % 9` of the selected list. Its autoplay is off exactly when it is camera 5 and the video state is 1 or 2. |
| `Dashboard.OtherUser` | app/dashboard/page.tsx:56-58 | The user tap always switches to the other user. |
| `Dashboard.UserTapSwapsRows` | app/dashboard/page.tsx:56-62 | Two user taps restore the active user. One user tap swaps the people in the two rows and leaves the second row's online status as it was. |
| `Dashboard.UsersConfig` | app/dashboard/page.tsx:133-145 | The list has two entries. The first is the active user, with role "(You)", online, and that user's avatar. The second is the other user, online exactly when `otherUserOnline` holds; Carl is "(Admin)" and Adam is "(Guest)". |
| `Dashboard.NextVideoState` | app/dashboard/page.tsx:64-66 | From any non-negative state the toggle lands in 1..4, and it cycles 1, 2, 3, 4, 1. |
| `Dashboard.FourTogglesRestore` | app/dashboard/page.tsx:64-66 | Four toggles from any state in 1..4 give back that state. |
| `Dashboard.DashboardState.constructor` | app/dashboard/page.tsx:11-15 | The page starts with Adam active, the other user offline, video state 1, nothing expanded and no focus, and the invariant holds. |
| `Dashboard.DashboardState.HandleUserTap` | app/dashboard/page.tsx:56-58 | Only the active user changes, to the other user. |
| `Dashboard.DashboardState.HandlePlusIconTap` | app/dashboard/page.tsx:60-62 | Only `otherUserOnline` changes, to its negation. |
| `Dashboard.DashboardState.HandleVideoStateToggle` | app/dashboard/page.tsx:64-66 | Only the video state changes, to `NextVideoState` of the old one. It stays in 1..4. |
| `Dashboard.DashboardState.HandleCameraTap` | app/dashboard/page.tsx:93-131 | The new expanded set and focus are `Tap` of the old ones. Nothing else changes. The invariant is kept for a tap from a listed card with its own variant. |
| `CameraFeed.GetHeightClass` | components/CameraFeed.tsx:174-179 | The class is `h-64` exactly when the card is focused. An unfocused card gets `h-32` exactly when its expansion matches "full" (a full card expanded, or a short card not expanded), and `h-48` otherwise. |
| `CameraFeed.VideoList` | components/CameraFeed.tsx:166-169 | The list has 9 entries. It is the night list exactly when the video state is 1 or 2, and the day list otherwise. |
| `CameraFeed.SourceForKey` | components/CameraFeed.tsx:169-171 | For a parsed id `n >= 0` the source is entry `n % 9`. For NaN or a negative `n` it falls back to entry 0. It is always an entry of the selected list. |
| `CameraFeed.GetVideoSource` | components/CameraFeed.tsx:164-172 | The same statement in terms of `parseInt(id)`. |
| `CameraFeed.BlackVideoSlot` | components/CameraFeed.tsx:167-171 | The source is `/black.mp4` exactly when the state is 1 or 2 and the parsed key is a non-negative integer that is 5 modulo 9. |
| `CameraFeed.Autoplay` | components/CameraFeed.tsx:211 | Autoplay is off exactly in that case. |
| `CameraFeed.GenerateGrainTile` | components/CameraFeed.tsx:129-140 | The buffer is newly allocated and has 4 * 320 * 180 bytes. For every pixel `i`, bytes `4i`, `4i+1` and `4i+2` hold `noise[i]` and byte `4i+3` is 255. |
| `CameraFeed.FramesSpacedApart` | components/CameraFeed.tsx:113-119 | If consecutive drawn frames are at least 33 ms apart, then frames `i < j` are at least `33 * (j - i)` ms apart. |
| `CameraFeed.GrainAnimation.constructor` | components/CameraFeed.tsx:110-111 | The loop starts with `lastTime` 0 and no frame drawn. |
| `CameraFeed.GrainAnimation.GenerateGrain` | components/CameraFeed.tsx:113-152 | A frame gets past the throttle exactly when `timestamp - lastTime >= 33`, and then `lastTime` becomes its timestamp, even if the canvas is 0x0. A tile is drawn exactly when the frame gets past the throttle and both canvas dimensions are non-zero, and the tile is a newly allocated grain fill of the noise. Drawn frames stay at least 33 ms apart. |
| `JsNumber.Rem` | app/dashboard/page.tsx:65 | JavaScript `%` with a positive divisor: the result lies strictly between `-b` and `b`, equals the Euclidean remainder for a non-negative dividend, and is never positive for a negative one. |
| `JsNumber.RemOdd` | app/dashboard/page.tsx:65 | Negating the dividend negates the remainder, so for a negative dividend the result is minus the remainder of its magnitude. |
| `JsNumber.ParseIntDecimal` | components/CameraFeed.tsx:171 | `parseInt` reads back the decimal rendering of every `n >= 0`, with or without a leading minus sign. |
| `JsNumber.ParseIntIgnoresRest` | components/CameraFeed.tsx:171 | For any non-empty run of decimal digits `d` and any `rest` that does not start with a decimal digit, `parseInt(d + rest)` is the value of `d`, the same as `parseInt(d)`. The one exception, excluded, is `d` = "0" with `rest` starting with "x" or "X". |
| `JsNumber.ParseIntHex` | components/CameraFeed.tsx:171 | Without a radix, "0x" or "0X" followed by a run of hexadecimal digits `h` gives the base-16 value of `h`, whatever follows that is not a hexadecimal digit. An empty `h` gives NaN. |
| `JsNumber.ParseIntSkipsWhiteSpace` | components/CameraFeed.tsx:171 | Leading white space and line terminators do not change the result of `parseInt`. |

## Left out

- `public/sw.js`, the service worker: its install, fetch and activate handlers only call the browser Cache API and `fetch`.
- `app/login/page.tsx`: timers, `localStorage` writes and router navigation, with no computation.
- The dashboard's auth gate, `currentUser` loading screen and logout (`app/dashboard/page.tsx:37-54`, 147-151): `localStorage` and router I/O.
- Service-worker registration, the notification permission request and the delayed notification (`app/dashboard/page.tsx:19-35`, 68-91): browser APIs and a 5-second timer.
- Tab selection (`setActiveTab`, line 219): a plain assignment with no logic.
- React's render batching. The model applies each tap to the latest state. In the source, `isExpanded` and `isFocused` are read from the render closure, so two taps handled before a re-render would both see the older state.
- The tile's random loading delay (`components/CameraFeed.tsx:44-51`): `Math.random` float timing.
- The manual replay of `/black.mp4` (`components/CameraFeed.tsx:53-62`): it drives the video element, and the dashboard never sets `blackVideoTriggered`.
- Canvas resizing, `putImageData`, `clearRect`, `drawImage`, and the `requestAnimationFrame`/`cancelAnimationFrame` scheduling: canvas and DOM side effects. The grain effect's start condition (line 93) is part of that scheduling.
- `GRAIN_INTENSITY` and `globalAlpha`: floating-point drawing parameters.
- `Math.random`: the noise is a supplied sequence of integers in 0..254, one per tile pixel.
- Frame timestamps are integers. The browser passes fractional milliseconds.
- CameraFeed.GetVideoSource: matches JavaScript only for ids whose parsed magnitude is below 2^53. The model keeps the exact integer. JavaScript rounds larger values to a double, which can select another entry: "9007199254740993" reads as 9007199254740992. Past about 1.8 * 10^308 the value is Infinity, the index is NaN, and the tile falls back to entry 0.
- CameraFeed.SourceForKey: the parsed key is an exact integer, so the same 2^53 limit applies.
- CameraFeed.BlackVideoSlot: holds for JavaScript only for ids whose parsed magnitude is below 2^53, for the same reason.
- CameraFeed.Autoplay: holds for JavaScript only for ids whose parsed magnitude is below 2^53, for the same reason.
- JsNumber.ParseInt: returns 0 where JavaScript returns -0 for "-0". Both select entry 0.
- All JSX markup, CSS classes other than the height class, and the hard-coded statistics.
