# harborchain-rwa orbit showcase — a verified model

This project models the interactive core of the harborchain-rwa showcase page in Dafny. The
page shows real-world-asset products as cards on an elliptical orbit that spins on its own,
can be dragged, wheeled and steered with the arrow keys, and carries a wallet button in its
header. The model covers six parts:

- **The orbit engine** (`Orbit`, from `useOrbit`):
  - evenly spaced starting angles and an idle speed;
  - an animation frame that turns every card by the current speed, then resets the speed to
    idle after three quiet seconds or applies friction;
  - drag, wheel and keyboard impulses.
- **The carousel** (`Projection` and `Carousel`, from `OrbitCarousel`):
  - the drag state machine for mouse and touch;
  - the keyboard focus cursor, with JavaScript's truncating `%`;
  - Enter selecting the focused product;
  - hover and focus highlighting;
  - the per-card scale, opacity and stacking order computed from its depth on the ellipse.
- **The wallet hook** (`Wallet`, from `useWallet`):
  - address shortening;
  - choosing the injected provider;
  - the status machine `idle`/`unavailable`/`connecting`/`connected`/`error`, driven by the
    account probe, `accountsChanged` events, `connect` and `disconnect`.
- **The header's wallet button** (`Header`, from `OrbitHeader`): what a click does, which label
  is shown, when the button is disabled, and when the error line and the install hint appear.
- **The pixel-art glyph parser** (`PixelArt`): trim, split into lines, drop blank lines, and map
  full blocks to filled cells.
- **The legacy single-file page** (`LegacyPage`):
  - its parser, which also trims each line;
  - its engine, which stamps the interaction time at creation;
  - its highlighted bottom tab;
  - its product modal's marketplace link and shortened contract address.

  Its carousel handlers and projection behave as the feature carousel's do, so
  `Carousel.OrbitCarousel` and `Projection` model them too.

Time is an integer count of milliseconds passed to each operation as `now`. JavaScript numbers
are modelled as `real`. Stateful parts are classes whose methods state their whole new state:

- `Orbit.Engine` holds the hook's `theta` state and its `speed` and `lastInteraction` refs.
- `Carousel.OrbitCarousel` holds the container size, hover, focus and drag refs. It also has a
  ghost record of the drag deltas it has forwarded.
- `Wallet.WalletState` holds the resolved provider, `accounts`, `status` and `error`.

Pure functions specify each operation, and lemmas prove what the source promises about them.

## Model

| member | source | states |
|---|---|---|
| `Orbit.InitialAngles` | src/features/rwa-orbit/hooks/useOrbit.ts:11-13 | one starting angle per item |
| `Orbit.EvenlySpaced` | src/features/rwa-orbit/hooks/useOrbit.ts:11-13 | no items give no angles; otherwise the first angle is 0, angle i is i·(2π/n), every angle lies in [0, 2π), and neighbours are exactly 2π/n apart |
| `Orbit.Shift` | src/features/rwa-orbit/hooks/useOrbit.ts:27 | a frame's map keeps one angle per item |
| `Orbit.ShiftIsRigid` | src/features/rwa-orbit/hooks/useOrbit.ts:27 | a frame moves every angle by the same speed and keeps all pairwise distances |
| `Orbit.ShiftCompose` | src/features/rwa-orbit/hooks/useOrbit.ts:27 | two frames' shifts add up to one shift by the sum |
| `Orbit.ThresholdIsStrict` | src/features/rwa-orbit/hooks/useOrbit.ts:29-30 | exactly 3000 ms since the last interaction does not reset; 3001 ms resets to idle |
| `Orbit.ResetIsExact` | src/features/rwa-orbit/hooks/useOrbit.ts:29-30 | past the window the speed becomes exactly idle, whatever its sign or size |
| `Orbit.DecayStep` | src/features/rwa-orbit/hooks/useOrbit.ts:31-32 | inside the window, with friction in (0,1): a speed faster than idle gets strictly slower and keeps its sign; a speed no faster than idle is left unchanged |
| `Orbit.ScaleShrinks` | src/features/rwa-orbit/hooks/useOrbit.ts:32 | multiplying by a factor in (0,1) moves a nonzero speed strictly toward zero without crossing it |
| `Orbit.RunIsRigidRotation` | src/features/rwa-orbit/hooks/useOrbit.ts:22-42 | any run of frames moves all angles together by the sum of the speeds the frames read, and ends at the speed the rule sequence yields |
| `Orbit.HoldIsFixedPoint` | src/features/rwa-orbit/hooks/useOrbit.ts:31-32 | inside the window a speed no faster than idle never changes, so the ring turns by it every frame |
| `Orbit.WindowNeverSpeedsUp` | src/features/rwa-orbit/hooks/useOrbit.ts:29-32 | inside the window no run of frames increases the speed's magnitude or changes its sign |
| `Orbit.LastFrameResets` | src/features/rwa-orbit/hooks/useOrbit.ts:29-30 | a run whose last frame is past the window ends at exactly idle |
| `Orbit.IdleDrift` | src/features/rwa-orbit/hooks/useOrbit.ts:24-30 | when every frame is past the window the ring moves by its old speed once, then by idle per frame |
| `Orbit.Engine.constructor` | src/features/rwa-orbit/hooks/useOrbit.ts:10-16 | evenly spaced angles, speed equal to idle, interaction time 0 |
| `Orbit.Engine.MarkMounted` | src/features/rwa-orbit/hooks/useOrbit.ts:18-20 | the mount effect stamps the interaction time |
| `Orbit.Engine.Tick` | src/features/rwa-orbit/hooks/useOrbit.ts:23-33 | one frame: the new angles and speed are the frame function applied to the old ones with the elapsed time since the last interaction; the interaction time does not change |
| `Orbit.Engine.OnDrag` | src/features/rwa-orbit/hooks/useOrbit.ts:44-47 | adds dx·0.002 to the speed, unclamped, and stamps the time; the angles are untouched |
| `Orbit.Engine.OnWheel` | src/features/rwa-orbit/hooks/useOrbit.ts:49-52 | adds dy·0.0001 to the speed and stamps the time |
| `Orbit.Engine.OnKeyboard` | src/features/rwa-orbit/hooks/useOrbit.ts:54-57 | adds direction·0.01 to the speed and stamps the time |
| `Orbit.FourItemScenario` | src/features/rwa-orbit/hooks/useOrbit.ts:10-57 | four items mounted, one ArrowRight impulse and one frame: every card has moved by idle + 0.01 from its evenly spaced start, and friction has slowed the speed once |
| `Orbit.ImpulseThenTickKeepsMomentum` | src/features/rwa-orbit/hooks/useOrbit.ts:25-32 | a frame right after an impulse (elapsed 0) never resets the speed |
| `Projection.DepthStyleBounds` | src/features/rwa-orbit/components/OrbitCarousel.tsx:143-146 | for depth in [-1,1], scale is in [0.6,1], opacity in [0.5,1] and zIndex in [0,100] |
| `Projection.DepthStyleMonotone` | src/features/rwa-orbit/components/OrbitCarousel.tsx:144-146 | a nearer card is never smaller, fainter or lower in the stack |
| `Projection.DepthStyleEndpoints` | src/features/rwa-orbit/components/OrbitCarousel.tsx:144-146 | front card (1, 1, 100); back card (0.6, 0.5, 0) |
| `Projection.HighlightIsOnTop` | src/features/rwa-orbit/components/OrbitCarousel.tsx:158-160 | a hovered or focused card is scaled by 1.15, fully opaque, and stacked above every card that is not highlighted (a hovered card and a different focused card share zIndex 1000) |
| `Projection.SemiAxesFollowContainer` | src/features/rwa-orbit/components/OrbitCarousel.tsx:25-26 | the ellipse keeps the container's proportions; 800×500 gives semi-axes 280×175 |
| `Carousel.TruncRemIsRemainder` | src/features/rwa-orbit/components/OrbitCarousel.tsx:98 | JavaScript `%` is the remainder of division truncated toward zero: the dividend is the truncated quotient times the divisor plus the remainder, and the remainder takes the dividend's sign and is smaller than the divisor in magnitude |
| `Carousel.ArrowsStayInRange` | src/features/rwa-orbit/components/OrbitCarousel.tsx:94-102 | from no focus or any card, either arrow lands on a card index in range; with no products both give NaN |
| `Carousel.FirstPressFromNoFocus` | src/features/rwa-orbit/components/OrbitCarousel.tsx:94-102 | from -1, ArrowRight focuses card 0 and ArrowLeft focuses card count-2 (card 0 when there is one) |
| `Carousel.ArrowsAreInverse` | src/features/rwa-orbit/components/OrbitCarousel.tsx:94-102 | on a focused card the arrows undo each other and wrap at both ends |
| `Carousel.WrapOnce` | src/features/rwa-orbit/components/OrbitCarousel.tsx:98 | a value in [0, 2n) wraps at most once |
| `Carousel.SumAppend` | src/features/rwa-orbit/components/OrbitCarousel.tsx:60-63 | appending one forwarded delta adds it to the total |
| `Carousel.DragDeltas` | src/features/rwa-orbit/components/OrbitCarousel.tsx:60-63 | one delta per move event |
| `Carousel.DragDeltasTelescope` | src/features/rwa-orbit/components/OrbitCarousel.tsx:56-63 | a drag's deltas add up to its final x minus its press x, however the motion was split into events |
| `Carousel.OrbitCarousel.constructor` | src/features/rwa-orbit/components/OrbitCarousel.tsx:16-33 | 800×500 container, nothing hovered, focus -1, not dragging, engine with friction 0.96 and idle 0.0008 |
| `Carousel.OrbitCarousel.Resize` | src/features/rwa-orbit/components/OrbitCarousel.tsx:40-47 | only the container size changes |
| `Carousel.OrbitCarousel.Mount` | src/features/rwa-orbit/components/OrbitCarousel.tsx:35-54 | the mount effects: the engine's interaction time is stamped and an attached container's size is read; nothing else changes |
| `Carousel.OrbitCarousel.MouseDown` | src/features/rwa-orbit/components/OrbitCarousel.tsx:56-59 | enters drag mode at the pressed point |
| `Carousel.OrbitCarousel.MouseMove` | src/features/rwa-orbit/components/OrbitCarousel.tsx:60-65 | outside drag mode nothing changes; inside it the x-distance from the recorded point becomes a drag impulse and the point is recorded, which keeps the total forwarded equal to the x moved since the press |
| `Carousel.OrbitCarousel.EndDragging` | src/features/rwa-orbit/components/OrbitCarousel.tsx:66-68 | leaves drag mode |
| `Carousel.OrbitCarousel.TouchStart` | src/features/rwa-orbit/components/OrbitCarousel.tsx:70-74 | a press at the first touch point |
| `Carousel.OrbitCarousel.TouchMove` | src/features/rwa-orbit/components/OrbitCarousel.tsx:75-81 | a move to the first touch point |
| `Carousel.OrbitCarousel.Wheel` | src/features/rwa-orbit/components/OrbitCarousel.tsx:86-89 | a wheel impulse of the event's deltaY |
| `Carousel.OrbitCarousel.KeyDown` | src/features/rwa-orbit/components/OrbitCarousel.tsx:94-107 | each arrow gives a keyboard impulse of ∓1 and moves the focus with wrap-around; Enter selects the focused product only when focus ≥ 0; other keys change nothing |
| `Carousel.OrbitCarousel.HoverCard` | src/features/rwa-orbit/components/OrbitCarousel.tsx:162 | the entered card becomes the hovered one |
| `Carousel.OrbitCarousel.UnhoverCard` | src/features/rwa-orbit/components/OrbitCarousel.tsx:163 | no card is hovered |
| `Carousel.OrbitCarousel.FocusCard` | src/features/rwa-orbit/components/OrbitCarousel.tsx:164 | the focused card becomes the focus index and is highlighted |
| `Carousel.HighlightedCardOnTop` | src/features/rwa-orbit/components/OrbitCarousel.tsx:148-160 | a hovered or focused card is drawn above, and is at least as opaque as, every card that is neither |
| `Wallet.TruncateAddressShape` | src/features/rwa-orbit/hooks/useWallet.ts:34-36 | the first six characters, "…", then the last four; a short address gives all of its characters at both ends |
| `Wallet.TruncateAddressSameExactly` | src/features/rwa-orbit/hooks/useWallet.ts:34-36 | two addresses of length ≥ 6 shorten alike exactly when their first six and last four characters agree |
| `Wallet.FirstMetaMask` | src/features/rwa-orbit/hooks/useWallet.ts:50-52 | the index of the first non-null MetaMask entry, or none when there is none |
| `Wallet.ResolveFromProvidersArray` | src/features/rwa-orbit/hooks/useWallet.ts:49-59 | with a `providers` array the first MetaMask entry wins; otherwise its first entry, which may be absent |
| `Wallet.ResolveWithoutProvidersArray` | src/features/rwa-orbit/hooks/useWallet.ts:38-65 | no window or no injected object gives nothing; otherwise the injected object is used exactly when it is MetaMask or has `request` |
| `Wallet.WalletState.FormattedAddress` | src/features/rwa-orbit/hooks/useWallet.ts:149-152 | a connected wallet always has a non-empty formatted address; when present it is the primary account's first six characters (all of a shorter one), the ellipsis, and its last four |
| `Wallet.WalletState.constructor` | src/features/rwa-orbit/hooks/useWallet.ts:69-81 | `idle` with a resolved provider, `unavailable` without; no accounts, no error |
| `Wallet.WalletState.ProbeAccounts` | src/features/rwa-orbit/hooks/useWallet.ts:94-104 | a non-empty array reply connects with those accounts; anything else, including a rejection, changes nothing |
| `Wallet.WalletState.AccountsChanged` | src/features/rwa-orbit/hooks/useWallet.ts:86-90 | non-arrays are ignored; an array replaces the accounts, with status connected when non-empty and idle when empty |
| `Wallet.WalletState.BeginConnect` | src/features/rwa-orbit/hooks/useWallet.ts:111-119 | without a provider: unavailable plus a message, no request; with one: connecting, error cleared, request sent |
| `Wallet.WalletState.FinishConnect` | src/features/rwa-orbit/hooks/useWallet.ts:121-140 | a non-empty array connects; an empty or non-array reply returns to idle with the old accounts; a throw records the Error's message or the fallback text and sets error |
| `Wallet.WalletState.Disconnect` | src/features/rwa-orbit/hooks/useWallet.ts:143-147 | no accounts, no error, idle with a provider and unavailable without; no longer connected |
| `Header.DisabledExactlyWhenIgnored` | src/features/rwa-orbit/components/OrbitHeader.tsx:19-26 | the button is disabled exactly when a click on it would be ignored |
| `Header.ShortenedAddressIsNoFixedLabel` | src/features/rwa-orbit/components/OrbitHeader.tsx:28-35 | a shortened address is never empty and never equals one of the fixed labels |
| `Header.LabelReflectsWallet` | src/features/rwa-orbit/components/OrbitHeader.tsx:28-35 | "Install Wallet" exactly when unavailable; "Connecting" exactly while connecting; the shortened primary account when connected; "Connect" in every other state |
| `Header.HintAndErrorLines` | src/features/rwa-orbit/components/OrbitHeader.tsx:52-59 | the hint shows exactly when no wallet is available, and the error line never shows then, so the no-wallet message `connect` records is never displayed |
| `Header.Click` | src/features/rwa-orbit/components/OrbitHeader.tsx:19-26 | ignored while connecting; disconnects when connected; otherwise connects |
| `PixelArt.TrimStartDropsWhitespace` | src/components/PixelArt.tsx:11 | leading trim drops only white space and keeps a suffix that starts with none |
| `PixelArt.TrimEndDropsWhitespace` | src/components/PixelArt.tsx:11 | trailing trim drops only white space and keeps a prefix that ends with none |
| `PixelArt.TrimIsInnerSlice` | src/components/PixelArt.tsx:11 | `trim()` returns a slice of the text with only white space cut off at either end |
| `PixelArt.TrimHasNoOuterWhitespace` | src/components/PixelArt.tsx:11 | a trimmed string neither starts nor ends with white space |
| `PixelArt.TrimEmptyIffWhitespace` | src/components/PixelArt.tsx:11 | a line trims to nothing exactly when it is all white space |
| `PixelArt.SplitLines` | src/components/PixelArt.tsx:11 | splitting always yields at least one piece |
| `PixelArt.SplitLinesWithoutLineFeed` | src/components/PixelArt.tsx:11 | text with no line feed is a single line |
| `PixelArt.SplitLinesRoundTrip` | src/components/PixelArt.tsx:11 | joining the pieces with line feeds gives back the text, and no piece contains a line feed |
| `PixelArt.KeepNonBlankKeepsExactlyNonBlank` | src/components/PixelArt.tsx:11 | a line is kept exactly when it is an input line with some non-white-space character |
| `PixelArt.KeepNonBlankDistributes` | src/components/PixelArt.tsx:11 | the filter works line by line, so kept lines keep their order |
| `PixelArt.RenderMatchesRows` | src/components/PixelArt.tsx:15-25 | one cell per character of each kept row; a cell is filled exactly when its character is █, and it is size × size |
| `PixelArt.TrimKeepsBlocks` | src/components/PixelArt.tsx:11 | trimming removes no █ |
| `PixelArt.SplitKeepsBlocks` | src/components/PixelArt.tsx:11 | splitting into lines loses no █ |
| `PixelArt.KeepNonBlankKeepsBlocks` | src/components/PixelArt.tsx:11 | dropping blank lines loses no █ |
| `PixelArt.FilledCellsEqualBlocks` | src/components/PixelArt.tsx:11-25 | the grid has exactly as many filled cells as the text has █ characters |
| `PixelArt.WhitespaceOnlyHasNoRows` | src/components/PixelArt.tsx:11 | text that is all white space renders no rows |
| `LegacyPage.TrimThenFilterCommute` | src/components/RWAOrbitPage.tsx:30-34 | trimming each line and then dropping empty ones equals dropping blank lines and then trimming |
| `LegacyPage.LegacyRowsAreTrimmedRows` | src/components/RWAOrbitPage.tsx:30-34 | the legacy parser keeps the same rows as the feature parser, in order, each one trimmed |
| `LegacyPage.LegacyRowsAreTight` | src/components/RWAOrbitPage.tsx:30-34 | no legacy row is empty or has white space at either end |
| `LegacyPage.ParsersAgreeExactlyOnTightRows` | src/components/RWAOrbitPage.tsx:30-34 | the two parsers agree exactly when no feature row has outer white space |
| `LegacyPage.LegacyFilledCellsEqualBlocks` | src/components/RWAOrbitPage.tsx:30-47 | the legacy grid has as many filled cells as the feature grid and as the text has █ characters |
| `LegacyPage.MountEngine` | src/components/RWAOrbitPage.tsx:313-317 | the same starting angles and speed as the feature hook, with the interaction time stamped at creation |
| `LegacyPage.AtRestDriftsAtIdle` | src/components/RWAOrbitPage.tsx:320-331 | at idle speed the engine stays at idle whatever the elapsed times, drifting by idle per frame |
| `LegacyPage.MountStampIsInvisibleAtRest` | src/components/RWAOrbitPage.tsx:317 | until the first impulse, where the interaction time was stamped cannot be seen: runs of equal length end in the same state |
| `LegacyPage.HighlightedTabIsFocus` | src/components/RWAOrbitPage.tsx:621-629 | the highlighted tabs are exactly the focused index when it is in range, and none otherwise |
| `LegacyPage.OneTabAfterArrow` | src/components/RWAOrbitPage.tsx:460-468 | after either arrow key on a non-empty page exactly one tab is highlighted |
| `LegacyPage.NftUrlRecoversContract` | src/components/RWAOrbitPage.tsx:61-62 | the link is the marketplace base URL followed by the contract address |
| `LegacyPage.NftUrlIsInjective` | src/components/RWAOrbitPage.tsx:61-62 | two links are equal exactly when marketplace and contract are both equal |
| `LegacyPage.ShortContractShape` | src/components/RWAOrbitPage.tsx:147 | the first eight characters (all of a shorter address) followed by "..." |
| `LegacyPage.ShortContractSameExactly` | src/components/RWAOrbitPage.tsx:147 | contracts of length ≥ 8 look alike exactly when their first eight characters agree |

The legacy page's own copies of the carousel handlers (src/components/RWAOrbitPage.tsx:425-473)
and of the projection (src/components/RWAOrbitPage.tsx:517-540) have the same behaviour as the
feature carousel's; they differ only in listener wiring (no `typeof window` guard on the resize
listener, and a wheel listener registered once). `Carousel.OrbitCarousel` and `Projection` model
them. The legacy engine's frame and
impulse rules (src/components/RWAOrbitPage.tsx:320-355) are `Orbit.Engine`'s.

## Left out

- Trigonometry: `Math.cos`/`Math.sin` are not modelled. A card's depth, the sine of its angle,
  is an input in [-1, 1] to the projection, and the x/y pixel offsets are not computed.
- Floating point: numbers are exact reals. IEEE rounding, `-0`, and `NaN` from arithmetic are
  not modelled. The one exception is the focus index's `x % 0` with no products, modelled as
  `NaN`.
- Scheduling and clocks: `requestAnimationFrame`/`cancelAnimationFrame` and `Date.now()` become
  `Orbit.Engine.Tick(now)` and a `now` argument on every impulse.
- `Orbit.Engine.Tick`: models the source order, where the angles move by the speed read before
  the speed rule runs. React may apply the deferred `setTheta` updater after the rule has
  changed the ref; that ordering depends on the scheduler and is not modelled.
- DOM and event plumbing: listener registration and removal, `preventDefault`,
  `passive: false`, the `typeof window` guard, and reading `clientWidth`/`clientHeight`. Events
  are method calls with their data as parameters.
- `Carousel.OrbitCarousel.TouchStart` and `Carousel.OrbitCarousel.TouchMove` require at least
  one touch point. The source reads `touches[0]` and would throw on an empty list, which browsers
  do not deliver for these events.
- Products are a constant list. A change of the `products` prop while the engine keeps its
  angles is not modelled.
- The `useOrbit` defaults `friction = 0.95` and `idle = 0.001` are not modelled, because every caller passes 0.96 and 0.0008; `Orbit.Engine.constructor` takes both as arguments.
- The `a`/`b` defaults (300, 180) of `useOrbit` and the values passed in are returned unused by
  the hook. The carousel computes its semi-axes itself, and `Projection.SemiAxes` models that.
- Asynchronous wallet I/O: promises, `window.ethereum` access and the
  `on`/`removeListener` subscriptions are left out. `connect` is split into
  `Wallet.WalletState.BeginConnect` (the synchronous part) and
  `Wallet.WalletState.FinishConnect` (the settled reply, given as an input). The mount probe is
  `Wallet.WalletState.ProbeAccounts`. A reply arriving after unmount and interleavings of
  overlapping requests are not modelled.
- Account arrays are sequences of strings. Non-string entries, which the source casts without
  checking, are not modelled.
- Strings are sequences of Unicode code points. `line.split("")` in the feature parser splits
  UTF-16 code units, which differ from code points only outside the Basic Multilingual Plane.
- Markup and styling: colours, shadows, icons, spinners, CSS classes and layout.
- The product modal's body-overflow handling and its Escape listener are DOM side effects.
  src/features/rwa-orbit/modal/ProductModal.tsx is not part of this model. Its link composition
  is the legacy modal's, modelled by `LegacyPage.NftUrl`.
- `LegacyPage.NftUrl`: the marketplace lookup is assumed to succeed, as the product catalogue's
  type guarantees. The legacy modal takes an untyped product and reads `.baseUrl` without a
  guard, so an unknown marketplace key would throw a TypeError; that failure is not modelled.
- The product catalogue, type declarations, the grid background, the page composition and the
  one-line API route have no logic to model.
