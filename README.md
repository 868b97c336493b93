# Escape velocity calculator, modelled in Dafny

The system is a single web page and the small service behind it. On the page
the user picks a shell material and a fuel, and enters a height, a diameter
and a fill level. The page posts these to `/calculate`. The service looks up
the material's density and the fuel's density and exhaust velocity. It then
checks the numbers and models the rocket as a cylinder whose tank has 85 % of
its diameter. From that it computes the dry mass `mf`, the loaded mass `m0`
and delta-v = v_e * ln(m0 / mf) (the Tsiolkovsky rocket equation). The page
shows the delta-v and whether it reaches Earth's escape velocity, 11200 m/s.

The project has four modules:

- `Wrappers` (wrappers.dfy): `Option` and `Result`.
- `Backend` (backend.dfy): the two lookup tables, stored as sequences of
  entries in insertion order. It also holds the `/materials` and `/fuels`
  routes, the validator, and the volume and mass model over exact reals.
  `math.pi` is the constant `Pi`, the decimal 3.141592653589793.
  `math.log` is a parameter `ln` of the members that need it. The lemmas
  about it assume only what they name, such as `ln(1) = 0` or monotonicity.
- `Frontend` (frontend.dfy): the page component. It is a class `HomePage`
  holding the form (a map from the five control names to their text), the
  `loading` flag and the stored result. Its handler methods change those
  fields. Pure functions give what the page shows: the button state and
  label, the spinner, and the result panel.
- `Exchange` (exchange.dfy): how a service response becomes the page's
  stored result. Lemmas here tie the validator to what the page shows.

The validator accepts a fill fraction only in [0, 1], yet the form labels the
field "Fuel Fill Percentage (0 to 100)" and allows up to 100. So any fill the
user enters as a percentage above 1, such as 50, is refused with a 400
(`Backend.FillAboveOneRejected`, `Exchange.HalfFullAsPercentBreaksPageAsWritten`).
The page does not check the status and stores the error body as its result.
That leads to the finding below.

## Model

| member | source | states |
|---|---|---|
| `Backend.Lookup` | backend.py:60-73 | a lookup finds a value only if the table holds that very entry, and finds nothing exactly when no entry has the name |
| `Backend.Keys` | backend.py:41 | the key list of a table has one entry per table entry, and the i-th key is the i-th entry's name |
| `Backend.LookupFindsKeys` | backend.py:60 | a name passes the dictionary membership test exactly when it is one of the table's keys |
| `Backend.LookupAt` | backend.py:70 | indexing by the i-th key gives the i-th value whenever no earlier entry has that key, so always in a table with distinct keys |
| `Backend.LookupPositive` | backend.py:70 | a lookup in a table whose values are all positive finds a positive value |
| `Backend.LookupFuelPositive` | backend.py:73 | a lookup in a fuel table whose densities and exhaust velocities are all positive finds a fuel with both positive |
| `Backend.KeyList` | backend.py:41 | the key list of a dictionary holds each key once, in table order, and nothing that is not a key |
| `Backend.PositionsDistinct` | backend.py:8-32 | a table in which some function maps each key back to its own index has no key twice |
| `Backend.MaterialPositionAt` | backend.py:8-22 | the k-th material name is the k-th of the thirteen names, in table order |
| `Backend.FuelPositionAt` | backend.py:24-32 | the k-th fuel name is the k-th of the seven names, in table order |
| `Backend.MaterialKeysDistinct` | backend.py:8-22 | no material name occurs twice in the material table |
| `Backend.FuelKeysDistinct` | backend.py:24-32 | no fuel name occurs twice in the fuel table |
| `Backend.MaterialDensitiesPositive` | backend.py:8-22 | every material density is positive |
| `Backend.FuelValuesPositive` | backend.py:24-32 | every fuel density and exhaust velocity is positive |
| `Backend.GetMaterials` | backend.py:39-41 | /materials lists every material once, in table order, and lists nothing that is not a material |
| `Backend.GetFuels` | backend.py:45-47 | /fuels lists every fuel once, in table order, and lists nothing that is not a fuel |
| `Backend.Validate` | backend.py:53-63 | an unknown or missing material or fuel gives the name error, whatever the numbers; known names with height <= 0, diameter <= 0 or fill outside [0, 1] give the range error (absent numbers count as 0); any other request is accepted with the looked-up densities, all positive, and its own numbers |
| `Backend.CrossSectionPositive` | backend.py:67 | the cross-section pi * (d / 2)^2 is positive for a positive diameter |
| `Backend.TotalVolume` | backend.py:67 | a cylinder with positive height and diameter has positive volume |
| `Backend.TankVolume` | backend.py:68 | the tank volume is exactly 0.7225 times the total volume |
| `Backend.ShellVolume` | backend.py:69 | the shell volume is 0.2775 times the total volume, and positive for positive dimensions |
| `Backend.DryMass` | backend.py:70 | the dry mass is positive for positive dimensions and density |
| `Backend.FullFuelMass` | backend.py:73 | a full tank's fuel mass is positive for positive dimensions and fuel density |
| `Backend.LoadedMass` | backend.py:74-75 | for valid inputs the loaded mass is at least the dry mass, and equal to it exactly when the fill is 0 |
| `Backend.MassRatio` | backend.py:78 | over exact reals, the mass ratio m0 / mf is defined for every accepted request, is at least 1, and is exactly 1 iff the fill is 0 |
| `Backend.DeltaV` | backend.py:78 | delta-v = v_e * ln(m0 / mf) is defined for every accepted request and is non-negative for any logarithm that is non-negative from 1 upward |
| `Backend.CalculateDeltaV` | backend.py:52-80 | status 400 comes exactly with an error body and 200 exactly with a delta-v body; the name error comes iff a name is unknown (so it is checked before the ranges); the range error comes iff the names are known and a number is out of range; the delta-v is v_e * ln(m0 / mf) of the validated request |
| `Backend.FillAboveOneRejected` | backend.py:62-63 | with known names, any fill above 1 (such as a percentage like 50) is refused with 400 and the range error |
| `Backend.MissingDimensionRejected` | backend.py:55-62 | a request without a height or without a diameter is always refused with 400 |
| `Backend.MissingFillAccepted` | backend.py:58-62 | a request without a fill but with known names and positive dimensions is accepted, with mass ratio 1 |
| `Backend.ZeroFillZeroDeltaV` | backend.py:73-78 | an empty tank gives delta-v 0 for any logarithm with ln 1 = 0 |
| `Backend.RatioMonotoneInFill` | backend.py:73-78 | when material, fuel, height and diameter are fixed, raising the fill never lowers the mass ratio |
| `Backend.DeltaVMonotoneInFill` | backend.py:78 | raising the fill never lowers delta-v, for any logarithm that is monotone from 1 upward |
| `Frontend.NamesAreFormKeys` | frontend/src/app/page.js:83-122 | the five controls' names are distinct, and together they are exactly the five form keys |
| `Frontend.InitialForm` | frontend/src/app/page.js:9-15 | the initial form has exactly the five keys, each holding the empty text |
| `Frontend.RenderAsWritten` | frontend/src/app/page.js:128-159 | as written: the render throws, so the whole page is gone, iff the page is not loading and the stored result has no delta_v; otherwise the button is disabled, labelled "Calculating..." rather than "Calculate", and the spinner shown, each iff loading, and a panel is shown iff not loading and a result is stored |
| `Frontend.Render` | frontend/src/app/page.js:130-147 | corrected: always shows the page, and whenever the page as written does not crash it shows the same thing; the button is disabled, labelled "Calculating..." rather than "Calculate", and the spinner shown, each iff loading; spinner and result panel never show together; the panel shows iff not loading and the stored result has a delta_v; the panel shows that delta-v and escapes iff it is >= 11200 |
| `Frontend.EscapeBoundary` | frontend/src/app/page.js:147 | 11200 itself is shown as escaping; any lower value, such as 11199.99, is not |
| `Frontend.HomePage.constructor` | frontend/src/app/page.js:9-17 | the page starts with the empty five-key form, not loading, no result, an enabled "Calculate" button, no spinner and no panel |
| `Frontend.HomePage.HandleChange` | frontend/src/app/page.js:29-31 | a change overwrites exactly its control's key; the other four keys, the flag and the result are unchanged |
| `Frontend.HomePage.StartSubmit` | frontend/src/app/page.js:35-36 | a submit first sets loading and clears the result, so the spinner shows, the button is disabled and no stale panel is shown |
| `Frontend.HomePage.Succeed` | frontend/src/app/page.js:44-45 | a parsed response becomes the result; nothing else changes |
| `Frontend.HomePage.Finish` | frontend/src/app/page.js:48-49 | loading stops and the button is enabled again, with result and form unchanged |
| `Frontend.HomePage.HandleSubmit` | frontend/src/app/page.js:33-51 | the body sent is the form with its five keys; afterwards loading is off; the result is the parsed response on success and stays cleared on failure; the form is unchanged; the page shows the corrected and the as-written view of that result |
| `Frontend.SubmitTwice` | frontend/src/app/page.js:33-51 | after two submissions the result is entirely the second one's |
| `Exchange.ReceivedIgnoresStatus` | frontend/src/app/page.js:44-45 | the stored result depends only on the response body, never on its status |
| `Exchange.ReceivedOutcome` | frontend/src/app/page.js:44-45 | the parsed answer to a request carries a delta-v iff the service accepts the request, and then it is v_e * ln(m0 / mf) of the validated request; a refused request leaves the validator's error text |
| `Exchange.SubmitToService` | frontend/src/app/page.js:33-51 | after a submission the service answered, the stored result carries a delta-v iff the service accepted the request, that delta-v is v_e * ln(m0 / mf) of the request, a refused request leaves its error text, and then the page as written crashes while the corrected one shows no panel |
| `Exchange.RefusedRequestBreaksPageAsWritten` | frontend/src/app/page.js:144-146 | every refused request leaves the page as written formatting a missing delta_v, so its render crashes; the corrected page shows no panel |
| `Exchange.HalfFullAsPercentBreaksPageAsWritten` | backend.py:62-63 | steel, hydrazine, 10 m by 1 m, fill 50 is refused with the range error, and the page as written crashes on it |
| `Exchange.HalfFullAsPercentNamesKnown` | backend.py:19-25 | steel is in the material table with density 7850, and hydrazine in the fuel table with density 1010 and exhaust velocity 3500 |
| `Exchange.AcceptedRequestShown` | frontend/src/app/page.js:144-147 | an accepted request's delta-v is shown, with the escape branch iff it is >= 11200 |
| `Exchange.EmptyTankNeverEscapes` | backend.py:73-78 | an accepted request with an empty tank shows delta-v 0 and the no-escape branch |

## Left out

- Flask setup, CORS, routing, `jsonify`, `request.json`, `app.run` and the `/ping` route (backend.py:1-6, 34-36, 83-84). The handler is a function from a request record to a status and a body.
- `float(...)` conversion of the request fields (backend.py:55-58). The model takes numbers already converted. It does not model a request whose text is not a number; the source raises there, before the name check.
- IEEE floating point. `math.pi` is an exact decimal, sums and products are exact, and `**2` is a product. `math.log` is a parameter. The two-decimal formatting by `toFixed(2)` (page.js:146) is not modelled. Three float behaviours are therefore outside the model:
  - `float()` accepts `nan` and `inf`. A NaN or infinite height or diameter passes the range check at backend.py:62, because every comparison with NaN is false, and the service answers 200 with a NaN `delta_v`.
  - `**` raises `OverflowError` for a diameter near 1e160 (backend.py:67-68), so such a request fails instead of answering.
  - A diameter as small as 1e-170 underflows the volumes, so `mf` is 0 and `m0 / mf` raises `ZeroDivisionError` (backend.py:78). Over exact reals `MassRatio` is always defined.
- The option loader (`useEffect`, page.js:19-27), its two sequential fetches of `/materials` and then `/fuels`, and the `materials` and `fuels` lists it fills. This is network I/O.
- The `fetch` call itself and `console.error` (page.js:39-43, 47). A submission receives the parsed body, or `None` for a failed request or an unparsable body.
- Browser `required`/`min`/`max` checks on the inputs, and all JSX markup, styles and images (page.js:53-163, apart from the predicates at 130, 135, 138, 144 and 147).
- `Frontend.HomePage`: once the page as written has crashed (`ShownAsWritten()` is `Crashed`), React shows nothing and no further event reaches the component. The class does not enforce this: its handlers model the corrected page, and `SubmitTwice` after a refused first answer is a sequence only the corrected page can receive.
- Events that arrive while a request is in flight. `HomePage.HandleSubmit` runs the handler as one step; what the page shows during the request is stated on `StartSubmit`.

## Findings

| source | as written | input that shows it | evidently intended | confidence | as-written member | corrected member |
|---|---|---|---|---|---|---|
| frontend/src/app/page.js:144-146 | every parsed body is stored as `result`, including the `{error}` body of a 400, and then `result.delta_v.toFixed(2)` is evaluated, which throws when `delta_v` is absent | material Steel, fuel Hydrazine, height 10, diameter 1, fill 50 (the form allows up to 100); the service answers 400 with only an `error` field | a result without a numeric `delta_v` is not shown as a delta-v panel | not executed; high, from reading the code | `Frontend.RenderAsWritten`, `Exchange.HalfFullAsPercentBreaksPageAsWritten` | `Frontend.Render` |
