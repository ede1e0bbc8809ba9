# magic-slate core, modelled in Dafny

This project models the logic of magic-slate, a Next.js drawing app. The
app turns doodles into artwork and solves handwritten equations with AI flows.
The model covers five parts of it, each as immutable datatypes and pure
functions, with methods where the source loops:

- **The credit ledger.** This is the per-user record of plan, doodle and
  equation counters and last reset, with its fixed plan table. It covers:
  - lazy creation;
  - the monthly reset-or-plan-update;
  - the limit check, the increment and the status report;
  - the background handlers that drive it;
  - plan detection and the `GET /api/credits` route.

  Persistence is a map from user id to account. Clerk's authenticated id,
  the clock and `addMonths` are parameters. `Infinity` is the `Unlimited`
  limit. A plan string naming a property that every JavaScript object
  inherits (`toString`, `__proto__`, …) finds an object without limits in
  the plan table; its limits read as `undefined`, which is the `Missing`
  limit.
- **The drawing canvas** (`DoodleCanvas`):
  - its bitmap and the white fill on initialisation, resize and clear;
  - the export closure, with its "fill white if blank" rule;
  - the mouse and touch handlers and their `isDrawing` state;
  - coordinate mapping.

  The model states and relates the four different "is the canvas blank?"
  tests found in the components.
- **The three host components** (`MagicCanvasSection`,
  `EquationSolverSection`, `DoodleSection`). This covers the validation
  order before any AI call (data, image load, blank, prompt), the calls made
  and toasts shown, the tutorial query fallback, and the clear-signal
  handshake with the canvas.
- **`cryptoUtils`:**
  - the choice of the encryption secret;
  - the byte-to-hex encoding, which is the base 16 alphabet of section 8 of
    RFC 4648 in lower case;
  - `hexToUint8Array`, with JavaScript's lenient `parseInt(s, 16)` and the
    `Uint8Array` store written out.

  Both round trips are proved.
- **`getCookie`/`setCookie`** over the `name=value; name2=value2` cookie
  string of section 5.4 of RFC 6265. Also **`fetchYouTubeTutorials`**, the
  YouTube search behind the tutorial lists: its error-to-empty mapping, the
  item filter, and the two index-aligned lists.

Files, one module each:
- `wrappers.dfy`: `Option` and `Result`.
- `js_builtins.dfy`: the JavaScript built-ins used. These are `split`,
  `trim`, `startsWith`, `includes`, `length` in UTF-16 code units,
  `parseInt` with radix 16, and ToUint8.
- `plans.dfy`, `credits.dfy`, `inngest_functions.dfy` and `pricing.dfy`: the
  ledger side.
- `pixels.dfy`, `canvas.dfy`, `canvas_input.dfy`, `hosts.dfy`,
  `magic_canvas_section.dfy`, `equation_solver_section.dfy`,
  `doodle_section.dfy` and `host_agreement.dfy`: the canvas side.
- `crypto_utils.dfy`, `cookies.dfy` and `youtube.dfy`: the rest.

What the environment provides is a parameter. That covers:
- the authenticated user id;
- `now` and the month-addition function;
- the plans Clerk reports held. The pricing module reads them once, at its
  first evaluation, and the model keeps them as server state from then on;
- the answers of the AI flows, or the messages of the errors they throw;
- the environment variables;
- `document.cookie`, or its absence;
- the date string of `toUTCString`;
- the YouTube reply.

PNG encoding is a data URL that carries its bitmap, so loading it gives the
bitmap back. A bitmap without pixels encodes as `"data:,"`, as the HTML
standard says, and fails to load. Reading back the pixels of a canvas
without area throws, as `getImageData` does. What `stroke()` paints is a
parameter.

## Model

| member | source | states |
|---|---|---|
| Plans.GetPlanLimits | src/services/credits_service.ts:6-11 | free 10/20, little_wizard 20/30, wizard 100/200; wizard_pro is unlimited for both types, and it is the only unlimited plan; a property name every object inherits gives limits that read as `undefined`, and only such a name does; any other plan string gets the free limits (line 48) |
| Plans.ParseCreditType | src/services/credits_service.ts:13 | only the literals "doodle" and "equation" name a credit type |
| Plans.TypeName | src/services/credits_service.ts:13 | the literal naming each credit type parses back to that type |
| Plans.LimitsGrowWithTier | src/services/credits_service.ts:6-11 | in the order free, little_wizard, wizard, wizard_pro, a dearer plan never has a smaller limit for either type |
| Plans.InheritedPlanAdmitsNothing | src/services/credits_service.ts:88-93 | a plan with inherited limits admits no credit of either type, whatever the counter, since `n < undefined` is false |
| Credits.GetOrCreateUserCredits | src/services/credits_service.ts:25-45 | fails with the "Unauthorized" message exactly when the authenticated id is missing, empty or different; an existing record is returned and the store is unchanged; otherwise the new record has zero counters, the given plan and lastReset = now |
| Credits.CheckAndResetCredits | src/services/credits_service.ts:51-79 | refuses exactly the unauthenticated calls; when now is strictly after lastReset plus one month, the record becomes zero counters, lastReset = now, the given plan; otherwise only the plan is replaced; only the caller's record changes |
| Credits.CanUseCredit | src/services/credits_service.ts:81-94 | after the reset check, true exactly when the type is known and the post-reset counter is admitted by the given plan's limit (always for unlimited, never for an inherited name's missing limit); the store is the post-reset one |
| Credits.IncrementCredit | src/services/credits_service.ts:96-115 | after the reset check, exactly the named type's counter rises by one; the other counter, the plan and lastReset are unchanged; an unknown type changes nothing further |
| Credits.GetUserCreditStatus | src/services/credits_service.ts:118-134 | reports the post-reset counters, the limits of the given plan (missing for an inherited name), and that plan echoed |
| Credits.FirstAccessStartsEmpty | src/services/credits_service.ts:32-44 | a first access (under a clock where a month does not go backwards) yields zero counters, the given plan and lastReset = now, with no reset |
| Credits.CheckAndResetIdempotent | src/services/credits_service.ts:61-78 | a second reset check at the same instant changes nothing and returns the same record |
| Credits.CountersDropOnlyOnReset | src/services/credits_service.ts:61-70 | a counter only goes down when a reset is due, and then it is 0 and lastReset is now |
| Credits.UnlimitedPlanAlwaysAdmits | src/services/credits_service.ts:90 | wizard_pro admits both credit types whatever the counters |
| Credits.FreeQuotaAndMonthlyReset | src/services/credits_service.ts:61-70 | a free account at 10 doodles is refused with its record unchanged until a reset is due, and is then reset and admitted |
| Credits.StatusAgreesWithCheck | src/services/credits_service.ts:81-134 | at the same instant, the credit check admits a type exactly when the reported limit is unlimited or a number above the reported count; both leave the same store |
| CreditHandlers.ErrorResponse | src/inngest/functions.ts:45-51 | a message containing "Unauthorized" becomes "Authentication required" without details; any other becomes the fallback error with the message as details |
| CreditHandlers.LedgerRefusalAsksForAuthentication | src/inngest/functions.ts:47-48 | the ledger's refusal message is always reported as "Authentication required" |
| CreditHandlers.HandleUserAuth | src/inngest/functions.ts:11-20 | "initialized" exactly when authenticated, and then the stored plan is "free"; otherwise the store is unchanged and the error message is returned as a status "error" |
| CreditHandlers.HandleCreditCheck | src/inngest/functions.ts:28-51 | any falsy field gives "Missing required data" with no ledger access; an unauthenticated call gives "Authentication required" and leaves the store; otherwise "credit incremented" exactly when the ledger admits, with one increment, else "Credit limit reached" and no increment |
| CreditHandlers.HandlePaymentSuccess | src/inngest/functions.ts:59-79 | a falsy userId or newPlan gives "Missing required data"; "plan updated" exactly when the call is authenticated, and then the stored plan is newPlan; an unauthenticated call gives "Authentication required" |
| CreditHandlers.PaymentThenCheck | src/inngest/functions.ts:59-79 | after "plan updated", a credit check at the same instant changes nothing and admits a type exactly when the new plan's limit admits the counter the update left |
| CreditHandlers.CreditCheckSettles | src/inngest/functions.ts:37-44 | after one check the account carries the plan, needs no reset, and its counter is the post-reset one plus one exactly when a credit was taken, which happens exactly when the limit admits it |
| CreditHandlers.SequentialChecksRespectLimit | src/inngest/functions.ts:37-44 | any number of checks run one after another takes no more credits than a finite limit leaves, so never more than the limit |
| CreditHandlers.UserAuthStoresFreePlan | src/inngest/functions.ts:14 | running the account setup over an existing wizard account stores plan "free" |
| Pricing.PricingService | src/services/pricing_service.ts:22-49 | at most one flag is set; little_wizard when held; wizard when held without little_wizard; wizard_pro only when held alone among the three; none when none is held |
| Pricing.PlanFromFlags | src/app/api/credits/route.ts:13-17 | the plan string is always a key of the plan table, and is "free" exactly when no flag is set |
| Pricing.EffectivePlanPrecedence | src/app/api/credits/route.ts:13-17 | composed with plan detection, the route resolves little_wizard, then wizard, then wizard_pro, then free |
| Pricing.PlanFromSingleFlag | src/app/api/credits/route.ts:14-17 | when at most one flag is set, the route names the flag that is set |
| Pricing.CreditsGet | src/app/api/credits/route.ts:6-24 | the flags in force are those of the first evaluation of the pricing module and never change after it; 401 exactly when there is no signed-in user, and then the store is untouched; otherwise the body is exactly the credit status for the plan of the flags in force |
| Pricing.FlagsOutliveTheirRequest | src/services/pricing_service.ts:3-14 | after a wizard_pro user's request on a fresh server, a user holding no plan is reported wizard_pro with unlimited limits |
| Pricing.CreditsGetPerRequest | src/app/api/credits/route.ts:6-24 | with the flags read for each request: 401 exactly when there is no signed-in user, else the credit status for the plan the caller holds |
| Pricing.PerRequestReportIsCallers | src/app/api/credits/route.ts:13-24 | per request, the reported plan is the one the caller's held plans resolve to, and each reported limit admits the caller exactly when the ledger's credit check does |
| Pricing.PerRequestAgreesWhenFlagsMatch | src/services/pricing_service.ts:3-49 | the route as written and the per-request route answer alike on the first request and whenever the caller holds the plans read then |
| Pixels.WordFacts | src/components/DoodleCanvas.tsx:43-46 | the little-endian pixel word is 0 only for transparent black and 0xffffffff only for opaque white; its top byte is alpha |
| Pixels.DrawnAtInitMeans | src/components/DoodleCanvas.tsx:46 | the initialisation test counts a pixel as drawn exactly when it is neither transparent black nor opaque white |
| Pixels.DrawnAtExportMeans | src/components/DoodleCanvas.tsx:101 | the export test counts a pixel as drawn exactly when its alpha is non-zero and it is not opaque white, which is the host test |
| Pixels.BlankAtExportIsBlankForHost | src/components/MagicCanvasSection.tsx:103-110 | the export blank test and the host blank test accept the same buffers |
| Pixels.BlankTestsImplyHostBlank | src/components/DoodleSection.tsx:58-65 | a buffer blank at initialisation, or blank for DoodleSection, is blank for the hosts |
| Pixels.BlankForDoodleSectionMeans | src/components/DoodleSection.tsx:61 | with `&&` binding tighter than `\|\|`, blank exactly when every pixel is white in RGB with alpha 0 or 255 |
| Pixels.BlankTestsDiffer | src/components/DoodleSection.tsx:61 | transparent black is blank for the hosts and at initialisation but not for DoodleSection; a transparent coloured pixel is blank only for the hosts; transparent white is blank for DoodleSection but not at initialisation |
| Pixels.WhiteIsBlankForAll | src/components/DoodleCanvas.tsx:39-46 | an all-white buffer is blank by all four tests |
| Canvas.Filled | src/components/DoodleCanvas.tsx:39-40 | a filled bitmap has the given size and every pixel the given colour |
| Canvas.StableInitializeCanvas | src/components/DoodleCanvas.tsx:36-55 | a mounted canvas keeps its size and becomes all opaque white, which is blank; with a change listener it throws exactly when the canvas has no area; the listener is never called; an unmounted canvas stays unmounted |
| Canvas.ObserveSize | src/components/DoodleCanvas.tsx:63-83 | a differing width or height gives an all-white bitmap of the new size, kept even when the initialisation then throws (only with a listener and a zero dimension); the same size leaves the bitmap as it was and throws nothing |
| Canvas.ClearInternalCanvas | src/components/DoodleCanvas.tsx:114-120 | a mounted canvas ends all white at its size, whatever it held; it throws exactly when there is a listener and no area |
| Canvas.ClearIdempotent | src/components/DoodleCanvas.tsx:114-120 | clearing twice is clearing once, throw included |
| Canvas.OnClearSignal | src/components/DoodleCanvas.tsx:122-129 | a raised signal clears the canvas, then calls `onClear` exactly when it is given and the clear did not throw; a low signal does nothing |
| Canvas.LoadAfterEncode | src/components/DoodleCanvas.tsx:107 | encoding then loading gives the bitmap back when it has area; a bitmap without area does not load |
| Canvas.GetCanvasDataUrl | src/components/DoodleCanvas.tsx:89-112 | no canvas gives null; a canvas without area throws, since the pixels are read before the size guard; otherwise a canvas blank by the export test is filled white, any other is left unchanged, and the result is the PNG of the canvas as left |
| Canvas.ExportedImage | src/components/DoodleCanvas.tsx:97-107 | the export throws exactly when the canvas has no area; otherwise its image loads, and it is blank for the hosts exactly when the canvas was blank at export, and is then all white |
| Canvas.ExportedImageTestsAgree | src/components/DoodleCanvas.tsx:101-105 | on exported images, the DoodleSection test and the host test agree |
| Canvas.UnsizedCanvasExportsWhite | src/components/DoodleCanvas.tsx:101-107 | a never-resized canvas, still transparent black, is exported filled white, as the PNG of the white canvas |
| CanvasInput.GetCoordinates | src/components/DoodleCanvas.tsx:170-189 | the first touch, else the mouse position, less the canvas corner; (0,0) with no canvas or no position |
| CanvasInput.CoordinatesIgnoreScroll | src/components/DoodleCanvas.tsx:185-188 | shifting the canvas and the cursor together leaves the offset unchanged |
| CanvasInput.StartDrawing | src/components/DoodleCanvas.tsx:132-141 | with a canvas, a new path at the event's offset and drawing on; without one, nothing changes |
| CanvasInput.Draw | src/components/DoodleCanvas.tsx:143-156 | ignored unless drawing; otherwise the offset extends the path, the props are assigned to the context's style (round cap and join; an absent colour or width keeps the context's), and the path is stroked in that style |
| CanvasInput.StyledStable | src/components/DoodleCanvas.tsx:150-153 | assigning the same props twice is assigning them once; without colour and width only cap and join change; a given colour is the stroke colour |
| CanvasInput.StopDrawing | src/components/DoodleCanvas.tsx:158-168 | with a canvas, drawing stops and a listener gets the canvas's data URL, whether or not a stroke was in progress |
| CanvasInput.Handle | src/components/DoodleCanvas.tsx:191-200 | mouse down and touch start start a stroke; moves draw; mouse up, mouse leave and touch end stop it |
| CanvasInput.HandlePreservesValid | src/components/DoodleCanvas.tsx:132-168 | every handler keeps "drawing implies a mounted canvas and a started path", never mounts or unmounts, and leaves a style to which the props give what they gave before |
| CanvasInput.IdleMoveIgnored | src/components/DoodleCanvas.tsx:145 | a move while not drawing changes nothing and strokes nothing |
| CanvasInput.RunStrokes | src/components/DoodleCanvas.tsx:143-156 | over any event sequence on a mounted canvas, every stroke has at least one segment and the style the props give the canvas's initial style |
| CanvasInput.RunCounts | src/components/DoodleCanvas.tsx:132-200 | over any event sequence, there are no more strokes than moves, and with a listener exactly one data URL per stop event |
| CanvasInput.RunEffects | src/components/DoodleCanvas.tsx:132-200 | the two together: every stroke has at least one segment and the props' style over the initial one; no more strokes than moves; with a listener exactly one data URL per stop event |
| CanvasInput.HostsStrokeInDefaultStyle | src/components/MagicCanvasSection.tsx:205-211 | the hosts pass no colour or width, so on a fresh context every stroke is black and one pixel wide, with round cap and join |
| CanvasInput.PressDragRelease | src/components/DoodleCanvas.tsx:132-168 | press, drag, release gives one stroke from press to drag, then the painted canvas reported |
| CanvasInput.LeaveWhileIdleReports | src/components/DoodleCanvas.tsx:197 | the cursor leaving an idle canvas still reports the canvas |
| Hosts.PromptMissingMeans | src/components/MagicCanvasSection.tsx:117 | `!prompt.trim()` holds exactly when the prompt is white space only |
| Hosts.TutorialQuery | src/components/MagicCanvasSection.tsx:143 | the recognised text when non-empty, else "mathematical equation help"; never empty |
| Hosts.HostSeesExport | src/components/MagicCanvasSection.tsx:69-110 | a registered export throws exactly when the canvas has no area; otherwise it gives data that loads, blank by either host test exactly when the canvas was blank at export |
| Hosts.ReturnedDataLoads | src/components/DoodleCanvas.tsx:97-109 | whatever the canvas, a data URL the export returns always loads |
| MagicCanvasSection.HandleModeChange | src/components/MagicCanvasSection.tsx:50-57 | the new mode, no outputs, and the prompt kept only when the new mode is doodle |
| MagicCanvasSection.ModeChangeIdempotent | src/components/MagicCanvasSection.tsx:50-57 | choosing the same mode twice is choosing it once |
| MagicCanvasSection.OnCanvasActuallyCleared | src/components/MagicCanvasSection.tsx:63-66 | no outputs and the signal low; mode, prompt and loading flag kept |
| MagicCanvasSection.ClearRoundTrip | src/components/MagicCanvasSection.tsx:59-66 | a clear request followed by the canvas's callback leaves the signal low and no outputs |
| MagicCanvasSection.Recommend | src/components/MagicCanvasSection.tsx:134-136 | exactly one tutorial call with the given query; on success the answer becomes the tutorials and nothing else changes; on failure the error toast carries the message and the state is unchanged |
| MagicCanvasSection.EnhanceFlows | src/components/MagicCanvasSection.tsx:128-136 | enhance with the prompt, then a tutorial call on the prompt exactly when enhancement succeeded; the artwork is the enhancer's answer, the tutorials the search's answer when it succeeded; the toasts are the success and failure ones in order |
| MagicCanvasSection.SolveFlows | src/components/MagicCanvasSection.tsx:137-147 | solve, then a tutorial call on the recognised text or "mathematical equation help" exactly when solving succeeded; the solution is the solver's answer, the tutorials the search's answer when it succeeded; the toasts in order |
| MagicCanvasSection.HandleProcessCanvas | src/components/MagicCanvasSection.tsx:68-154 | when the export closure throws, the handler rejects with no toast, no call and no state change, and only then is there no toast; otherwise it continues as ProcessDataUrl on the returned data |
| MagicCanvasSection.ProcessDataUrl | src/components/MagicCanvasSection.tsx:71-154 | an AI call happens exactly when the data is present, loads, is not blank, and (in doodle mode) has a prompt; each refusal shows its own toast (no data, load failure, empty canvas, no prompt) and changes no state; otherwise it runs Launch |
| MagicCanvasSection.Launch | src/components/MagicCanvasSection.tsx:122-153 | in doodle mode: the enhancer, then the tutorial search on the prompt exactly when it succeeded; the state holds the data URL, the enhancer's answer if any, the search's answer if both succeeded, no solution, loading off; the toasts are "Doodle Enhanced!" after a success, followed by the error toast with the search's message when the search fails, or the error toast with the enhancer's message alone; in equation mode: the same with the solver, the tutorial query from its recognised text, no artwork and no doodle URL, and "Equation Processed!" in place of "Doodle Enhanced!" |
| MagicCanvasSection.BlankBeforePrompt | src/components/MagicCanvasSection.tsx:112-120 | a blank image gives "Empty Canvas" whatever the prompt |
| MagicCanvasSection.CanvasToFlows | src/components/MagicCanvasSection.tsx:69-139 | a canvas with area blank at export is refused as empty; a drawn one in equation mode goes to the solver as the PNG of that canvas |
| MagicCanvasSection.EmptyAreaCanvasAborts | src/components/MagicCanvasSection.tsx:69 | a mounted canvas without area makes the handler abort with no toast, no AI call and no state change |
| EquationSolverSection.HandleCanvasClear | src/components/EquationSolverSection.tsx:32-36 | solution and tutorials cleared and the signal raised, loading flags kept |
| EquationSolverSection.OnCanvasCleared | src/components/EquationSolverSection.tsx:38-40 | only the signal changes, to low |
| EquationSolverSection.ClearThenCleared | src/components/EquationSolverSection.tsx:32-40 | a clear then the canvas's callback leaves no outputs and the signal low |
| EquationSolverSection.RunFlows | src/components/EquationSolverSection.tsx:97-114 | solve first; on failure only the error toast and no state change; on success the solution is the solver's answer, the tutorial query is its recognised text or "mathematical equation help", the tutorials are the search's answer exactly when it succeeded, and a failed search adds the error toast |
| EquationSolverSection.HandleSolveEquation | src/components/EquationSolverSection.tsx:43-115 | when the export closure throws, the handler rejects with no toast, no call and no state change, and only then is there no toast; otherwise it continues as SolveDataUrl on the returned data |
| EquationSolverSection.SolveDataUrl | src/components/EquationSolverSection.tsx:46-115 | a solver call happens exactly when the data is present, loads and is not blank; missing data, load failure and a blank image each give their own toast and no state change; after a run the solution is the solver's answer if any, the tutorials the search's answer if both succeeded, and both loading flags are false; a failed solve shows the error toast alone, a success "Equation Processed!", followed by the error toast when the search fails |
| EquationSolverSection.UnrecognisedEquationSearchesHelp | src/components/EquationSolverSection.tsx:103 | a solution without recognised text searches tutorials for "mathematical equation help" |
| EquationSolverSection.EmptyAreaCanvasAborts | src/components/EquationSolverSection.tsx:44 | a mounted canvas without area makes the handler abort with no toast, no AI call and no state change |
| DoodleSection.HandleCanvasClear | src/components/DoodleSection.tsx:114-119 | all outputs cleared and the signal low; prompt and loading flags kept |
| DoodleSection.EnhanceLoaded | src/components/DoodleSection.tsx:47-99 | once the image has loaded, the enhancer is called exactly when the image is not blank by this component's test and the prompt has a non-blank character; a blank image gives "Empty Doodle" before the prompt is looked at; then the tutorial search on the prompt runs exactly when enhancement succeeds; the artwork is the enhancer's answer if any, the tutorials the search's answer if both succeeded, with the toasts of each outcome |
| DoodleSection.HandleEnhanceDoodle | src/components/DoodleSection.tsx:35-100 | when the export closure throws, the handler rejects with no toast, no call and no state change; otherwise it continues as EnhanceDataUrl on the returned data |
| DoodleSection.EnhanceDataUrl | src/components/DoodleSection.tsx:38-100 | missing data gives its error; an image that fails to load leaves the handler waiting, unsettled, with nothing shown; a loaded image continues as in EnhanceLoaded |
| DoodleSection.UnloadableDataStalls | src/components/DoodleSection.tsx:46 | given "data:,", which fails to load, the handler never settles |
| DoodleSection.ExportNeverStalls | src/components/DoodleSection.tsx:36-46 | through the export closure of the current canvas, registered or not, mounted or not, the handler always settles |
| DoodleSection.EmptyAreaCanvasAborts | src/components/DoodleSection.tsx:36 | a mounted canvas without area makes the handler abort with no toast, no AI call and no state change |
| DoodleSection.EnhanceDataUrlSettling | src/components/DoodleSection.tsx:38-100 | the handler always settles; a load failure is reported as the other hosts report it; an enhancer call happens exactly when the data loads and is admitted; otherwise one error toast and no state change |
| DoodleSection.SettlingAgreesWhenSettled | src/components/DoodleSection.tsx:46 | the settling handler equals the handler as written whenever the latter settles, and the latter fails to settle exactly on images that do not load |
| DoodleSection.SignalNeverRaised | src/components/DoodleSection.tsx:114-119 | from a low signal, neither clearing nor enhancing raises it, so the canvas is never told to clear |
| DoodleSection.BlankBeforePrompt | src/components/DoodleSection.tsx:67-75 | a blank image gives "Empty Doodle" even with an empty prompt |
| DoodleSection.ExportBlankAsOtherHosts | src/components/DoodleSection.tsx:58-75 | on the export of a canvas with area, the handler settles, refuses exactly the canvases blank at export, and otherwise calls the enhancer exactly when the prompt is not blank |
| HostAgreement.EquationHostsCallAlike | src/components/EquationSolverSection.tsx:43-115 | equation mode of MagicCanvasSection makes the same AI calls as EquationSolverSection on every export outcome, and after a call stores the same solution and tutorials |
| HostAgreement.DoodleHostsCallAlike | src/components/DoodleSection.tsx:35-100 | on every export of a mounted canvas, doodle mode of MagicCanvasSection and DoodleSection make the same AI calls, and after a call store the same artwork and tutorials |
| CryptoUtils.GetEncryptionSecret | src/lib/cryptoUtils.ts:5-26 | a missing or empty secret gives the fallback in development and the "not configured" error otherwise; a present secret is returned unchanged exactly when it has at least 32 UTF-16 code units, else the length error |
| CryptoUtils.ChosenSecretIsLongEnough | src/lib/cryptoUtils.ts:19-25 | whichever secret is chosen, the fallback included, has at least 32 code units |
| CryptoUtils.AstralSecretCountsDouble | src/lib/cryptoUtils.ts:20 | sixteen characters outside the Basic Multilingual Plane pass the length check |
| CryptoUtils.ByteToHex | src/lib/cryptoUtils.ts:84 | `toString(16)` padded to two characters is always exactly two characters |
| CryptoUtils.Nibbles | src/lib/cryptoUtils.ts:84 | the two characters are the lower-case digits of the byte's high and low nibbles, the padding supplying a leading 0 below 16 |
| CryptoUtils.ByteToHexDigits | src/lib/cryptoUtils.ts:84 | both characters are hex digits and together they denote the byte |
| CryptoUtils.EncodeHex | src/lib/cryptoUtils.ts:84-86 | the encoding is twice as long as the bytes |
| CryptoUtils.EncodedAt | src/lib/cryptoUtils.ts:84-86 | character 2k+j of the encoding is digit j of byte k |
| CryptoUtils.SaltAndIvHexLengths | src/lib/cryptoUtils.ts:66-67 | a 16-byte salt and a 12-byte IV encode as 32 and 24 characters |
| CryptoUtils.HexToUint8Array | src/lib/cryptoUtils.ts:101-110 | an odd length gives "Invalid hexString"; otherwise length/2 bytes, byte k being `parseInt` of characters 2k and 2k+1 in radix 16, stored as a Uint8Array element |
| CryptoUtils.PairByteOfDigits | src/lib/cryptoUtils.ts:107 | a pair of hex digits decodes to the number they denote |
| CryptoUtils.DigitsOfByte | src/lib/cryptoUtils.ts:84 | the two digits a byte encodes as are hex digits denoting that byte |
| CryptoUtils.PairDecodes | src/lib/cryptoUtils.ts:84-110 | characters 2k and 2k+1 of an encoding decode to byte k |
| CryptoUtils.DecodeAfterEncode | src/lib/cryptoUtils.ts:84-110 | the encoding has even length, half of it is the byte count, and each pair decodes to its byte |
| CryptoUtils.RoundTrip | src/lib/cryptoUtils.ts:84-110 | decoding the encoding of any bytes succeeds with those bytes |
| CryptoUtils.EncodeAfterDecode | src/lib/cryptoUtils.ts:84-110 | an even-length string of hex digits of either case decodes to bytes whose encoding is that string in lower case |
| CryptoUtils.EncodePairs | src/lib/cryptoUtils.ts:84-86 | bytes that each encode as the next lowered pair of a string encode together as that string lowered, character by character |
| CryptoUtils.EncodedCharAt | src/lib/cryptoUtils.ts:84-86 | under the same assumption, character i of the encoding is character i of the string lowered |
| CryptoUtils.PairEncodes | src/lib/cryptoUtils.ts:84-107 | re-encoding a decoded byte gives its two characters in lower case |
| CryptoUtils.DigitsEncode | src/lib/cryptoUtils.ts:84-107 | the byte that two hex digits denote encodes as those digits lowered |
| Cookies.StripLeadingSpaces | src/lib/cookieUtils.ts:22 | the result is empty or does not start with a space |
| Cookies.StripRemovesSpaces | src/lib/cookieUtils.ts:22 | the result is a suffix of the entry, and what was removed is all spaces (other white space is kept) |
| Cookies.EntryValue | src/lib/cookieUtils.ts:24 | the value of a ';'-free entry is ';'-free |
| Cookies.FirstMatch | src/lib/cookieUtils.ts:20-28 | no index exactly when no entry matches; otherwise the first matching entry |
| Cookies.GetCookie | src/lib/cookieUtils.ts:15-31 | null without a document; a value found never contains ';' |
| Cookies.GetCookieFindsFirst | src/lib/cookieUtils.ts:17-30 | null exactly when no ';'-separated entry, stripped of leading spaces, starts with `name=`; otherwise the rest of the first such entry |
| Cookies.OnlyExactNamesMatch | src/lib/cookieUtils.ts:23 | in "myname=1; name2=2; name=3", looking up "name" gives "3" |
| Cookies.LongerNamesDoNotMatch | src/lib/cookieUtils.ts:23 | entries whose names end with, or start with, the wanted name do not match |
| Cookies.ExactNameMatches | src/lib/cookieUtils.ts:22-24 | " name=3" matches "name", with value "3" |
| Cookies.EmptyValueIsNotMissing | src/lib/cookieUtils.ts:24-30 | "name=" gives "" and not null; an empty cookie string gives null |
| Cookies.SetCookieString | src/lib/cookieUtils.ts:3-11 | nothing is written exactly when there is no document; with zero days the string splits into `name=value` and " path=/"; otherwise an expires part sits between them |
| Cookies.SetCookieParts | src/lib/cookieUtils.ts:9-11 | how the assigned string splits on ';' with and without expiry |
| Cookies.Lookup | src/lib/cookieUtils.ts:20-30 | the reference lookup on a list of cookies: none exactly when no cookie has the name |
| Cookies.ParseSetCookie | src/lib/cookieUtils.ts:11 | the cookie a browser stores from the assigned string: its first part split at its first '=', absent exactly when that part has no '=' |
| Cookies.FirstIndexOf | src/lib/cookieUtils.ts:11 | the first position of a character, absent exactly when the character does not occur |
| Cookies.Store | src/lib/cookieUtils.ts:11 | after storing a cookie that has not expired, the name looks up to the new value; every other name looks up as before; valid cookies stay valid |
| Cookies.Expire | src/lib/cookieUtils.ts:6-11 | a cookie written with an expiry in the past leaves no cookie of that name; every other name looks up as before; nothing new enters the store |
| Cookies.AfterSetCookie | src/lib/cookieUtils.ts:3-11 | the store after `setCookie`: the name looks up to the value set when `days` is zero or positive, and to nothing when `days` is negative; every other name is unchanged |
| Cookies.PairMatches | src/lib/cookieUtils.ts:22-24 | the entry of a valid cookie, behind any spaces, matches exactly its own name and yields its value |
| Cookies.FindInStore | src/lib/cookieUtils.ts:15-31 | getCookie over the cookie string of valid cookies answers as the reference lookup |
| Cookies.GetCookieReadsStore | src/lib/cookieUtils.ts:15-31 | the same, for the cookie string itself |
| Cookies.SetCookieParsesBack | src/lib/cookieUtils.ts:3-11 | the string setCookie assigns parses back to the cookie set, with or without expiry |
| Cookies.SetThenGet | src/lib/cookieUtils.ts:3-31 | setCookie then getCookie gives back the value set when `days` is zero or positive, and null when it is negative, since the expiry is then past; a lookup of any other name is unchanged |
| JsBuiltins.Split | src/lib/cookieUtils.ts:18 | at least one part, and no part contains the separator |
| JsBuiltins.JoinSplit | src/lib/cookieUtils.ts:18 | joining the parts with the separator gives back the string |
| JsBuiltins.SplitJoin | src/lib/cookieUtils.ts:18 | splitting a join of separator-free parts gives back the parts |
| JsBuiltins.TrimStartSuffix | src/components/DoodleSection.tsx:72 | `trimStart` keeps a suffix that is empty or starts with a non-blank, and everything it drops is white space |
| JsBuiltins.TrimEmptyIffBlank | src/components/DoodleSection.tsx:72 | `trim()` gives "" exactly when every character is white space |
| JsBuiltins.Utf16Length | src/lib/cryptoUtils.ts:20 | the length in code units lies between the number of characters and twice it |
| YouTube.Kept | src/services/youtube.ts:41-46 | the reference filter: no longer than the input, and every item it keeps has a non-empty video id and title |
| YouTube.TitlesOf | src/services/youtube.ts:43 | one title per kept item, at the same position |
| YouTube.UrlsOf | src/services/youtube.ts:44 | one URL per kept item, at the same position, formed as "https://www.youtube.com/watch?v=" followed by the video id |
| YouTube.WatchUrl | src/services/youtube.ts:44 | the watch URL is the fixed prefix followed by exactly the video id |
| YouTube.Collect | src/services/youtube.ts:38-48 | the `forEach` loop's two lists are the titles and the URLs of the reference filter's items |
| YouTube.FetchYouTubeTutorials | src/services/youtube.ts:13-53 | a missing or empty key makes no request and gives empty lists; otherwise one search for the query, the key and 5 results; a thrown error or non-ok reply gives empty lists; an `items` holding a null or undefined entry throws in the loop and gives empty lists, usable items included; otherwise the titles and URLs of the usable items, a missing `items` counting as none |
| YouTube.Values | src/services/youtube.ts:41-42 | the entries the loop reads are all values exactly when none is null or undefined, and then they are read in order |
| YouTube.KeptSnoc | src/services/youtube.ts:41-46 | filtering a list extended by one item extends the filtered list by that item exactly when it is usable |
| YouTube.KeptAppend | src/services/youtube.ts:41-46 | the filter distributes over concatenation, so items keep their original order |
| YouTube.KeptOfUsable | src/services/youtube.ts:41-46 | a list of usable items passes whole |
| YouTube.KeptMembers | src/services/youtube.ts:41-46 | an item is kept exactly when it is in the input and usable |
| YouTube.Aligned | src/services/youtube.ts:38-48 | the two lists have one length, and the title and URL at any position come from one usable input item |

## Left out

- Rasterisation and image codecs:
  - what `stroke()` paints is a parameter;
  - PNG encoding is a data URL carrying its bitmap;
  - premultiplied alpha, which can change the colour channels of semi-transparent pixels on the way through `toDataURL` and `getImageData`, is not modelled.
- React scheduling: state updates are applied when each handler returns, and the asynchronous gaps between them are not modelled.
- The host components' branch for a missing 2D context (`!ctx`) is left out. A mounted canvas always yields its context.
- Clerk, Prisma, date-fns and the clock are parameters. `addMonths` is an arbitrary function. The lemmas that need "a month does not go backwards" require it.
- Concurrency: two credit checks racing between `canUseCredit` and `incrementCredit` are not modelled. Calls run one after another.
- Out of scope entirely:
  - the AI flows (src/ai/flows), the Inngest event plumbing, and the `handleEnhanceDoodle`/`handleSolveEquation` job wrappers;
  - PBKDF2, AES-GCM and random salt/IV generation in `cryptoUtils` (calls into Web Crypto);
  - the `console` logging everywhere;
  - the UI-only components, pages and the service worker.
- `encodeURIComponent` and the exact search URL are not modelled. The request is the query, key and result count it carries.
- YouTube.FetchYouTubeTutorials: the video id and title are strings in the model. The source only tests them for truthiness (youtube.ts:42), so a truthy number or object is kept too: the number or object is pushed as the title, and the id is turned into text in the URL. Such items are not modelled.
- YouTube.FetchYouTubeTutorials: a body that is `null` or not an object, and an `items` that is truthy but not an array, are not modelled. Reading `data.items` or calling `items.forEach` on these throws, which is caught and gives empty lists.
- Cookies.SetCookieString: `days` is an integer. NaN and fractional days are not modelled. The `toUTCString` text is a parameter, and the store reads whether the expiry is past from the sign of `days`.
- Cookies.ParseSetCookie: the browser's own trimming of the name and value (section 5.2 of RFC 6265) is not modelled. The store holds cookies whose names have no leading spaces and no '=' or ';'.
- CryptoUtils.HexToUint8Array: `substring` and `length` count UTF-16 code units, but the model indexes characters. The two agree on the hex strings the app produces. A string with characters outside the Basic Multilingual Plane would be split differently.
- Pricing.CreditsGet: the body is the credit status as a value. `NextResponse.json` writes an unlimited limit (`Infinity`) as `null` and drops a missing one (`undefined`), so the client cannot tell these apart from the JSON alone. That serialisation is not modelled.
- Pricing.CreditsGet: if the module-level `auth()` throws because it runs outside a request, the pricing module fails to load and every request fails. The model takes the first evaluation to succeed.
- CanvasInput.Draw: any colour string given is taken to be one the canvas accepts. An unparsable colour, which the canvas silently ignores, is not modelled.
- CanvasInput.Draw: setting a canvas's width or height resets its context's style to the defaults. The model keeps the style across a resize. For the hosts this changes nothing, since they pass no colour or width and `draw` sets cap and join on every move.
- DoodleSection: nothing in the component raises its clear signal (`DoodleSection.SignalNeverRaised`), so the canvas's clear effect is never triggered from it.

## Findings

| source | as written | input that shows it | evidently intended | confidence | as-written member | corrected member |
|---|---|---|---|---|---|---|
| src/components/DoodleSection.tsx:46 | the image load is awaited on `onload` alone, with no `onerror` | data that fails to load, such as "data:,", leaves the handler waiting for ever with nothing shown; the canvas export never returns such data (a canvas without area throws before encoding), so in the app as wired the defect is latent | reject on `onerror` and report "Could not load image from canvas for validation.", as EquationSolverSection.tsx:55-63 and MagicCanvasSection.tsx:79-90 do | low, latent; not executed | DoodleSection.EnhanceDataUrl, DoodleSection.UnloadableDataStalls | DoodleSection.EnhanceDataUrlSettling, DoodleSection.SettlingAgreesWhenSettled, DoodleSection.ExportNeverStalls |
| src/services/pricing_service.ts:3-14 | `auth()` and the three `has` checks run once, when the module is first evaluated, and `pricingService` returns those flags to every later request | a wizard_pro subscriber makes the first request; a user on no plan then asks for their credits and is reported wizard_pro with unlimited limits | read the caller's plans inside `pricingService`, for each request | medium, not executed | Pricing.CreditsGet, Pricing.FlagsOutliveTheirRequest | Pricing.CreditsGetPerRequest, Pricing.PerRequestReportIsCallers, Pricing.PerRequestAgreesWhenFlagsMatch |
