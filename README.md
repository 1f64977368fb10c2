# Weather card display helpers

A model of the display logic of `WeatherCard`, a React widget that shows the
current weather for the browser's location. The data comes from an
OpenWeatherMap-style JSON response. The model covers the pure helpers the
component uses to turn that response into what it draws:

- the display unit, which starts as Celsius, and the button that toggles it
  (`toggleUnit`);
- the temperature shown in that unit (`getTemp`): `Math.round` of the Celsius
  reading, or of `t * 9/5 + 32` in Fahrenheit;
- the background gradient chosen from the condition code (`getGradient`);
- the icon chosen from the condition code and the day/night flag
  (`getWeatherIcon`). The flag is `iconString.includes('n')`.

Two modules:

- `JsRuntime` (`js_runtime.dfy`) states the two JavaScript built-ins the helpers
  rely on. `Includes` is `String.prototype.includes`: it tries each start
  position in turn, and its contract says it is true exactly when the pattern
  occurs somewhere. `Round` is `Math.round`, computed as floor(x + 1/2) over
  `real`. Its contract is ECMAScript's description: the closest integer, with
  ties going toward +infinity.
- `WeatherCard` (`weather_card.dfy`) holds the helpers. `GetGradient` and
  `GetWeatherIcon` keep the component's if-chains as written. `Classify` is one
  total classification of condition codes into `Storm | Rain | Snow | Clear |
  Cloud`. The contracts of both chains state that they factor through it
  (`Palette`, `IconFor`), so the background and the icon always name the same category.

The remark beside `isNight` in the component says the icon code "ends in 'n'".
The code tests for an `'n'` anywhere, and the model follows the code.
`IsNightOnOwmCodes` shows that the two readings agree on real OpenWeatherMap
icon codes: two digits followed by `d` or `n`. `IsNightNotOnlyAtEnd` shows
that they differ on other strings.

## Model

| member | source | states |
|---|---|---|
| `JsRuntime.Includes` | src/WeatherCard.jsx:46 | `s.includes(p)` is true exactly when `p` occurs in `s` at some start position |
| `JsRuntime.IncludesSingleChar` | src/WeatherCard.jsx:46 | searching for a one-character string is true iff that character is at some index, not only at the end |
| `JsRuntime.Round` | src/WeatherCard.jsx:31 | `Math.round(x)` is the integer closest to `x`; of two equally close integers it is the larger one |
| `JsRuntime.RoundUnique` | src/WeatherCard.jsx:31 | any integer meeting that description is `Math.round(x)`, so floor(x + 1/2) is exactly the specified rounding |
| `JsRuntime.RoundOfIntegral` | src/WeatherCard.jsx:31 | rounding an integer gives that integer back |
| `JsRuntime.RoundHalvesUp` | src/WeatherCard.jsx:31 | halves round toward +infinity for negative numbers too (`-2.5` goes to `-2`) |
| `JsRuntime.RoundMonotone` | src/WeatherCard.jsx:31 | rounding preserves order |
| `WeatherCard.ToggleUnit` | src/WeatherCard.jsx:28 | toggling always gives the other unit, so C goes to F and F goes to C |
| `WeatherCard.ToggleTwice` | src/WeatherCard.jsx:28 | toggling twice restores the original unit |
| `WeatherCard.GetTemp` | src/WeatherCard.jsx:30-32 | the shown number is the integer closest to the reading expressed in the current unit, with ties going up |
| `WeatherCard.GetTempByUnit` | src/WeatherCard.jsx:30-32 | in C the shown number is `Math.round(t)`; in F it is `Math.round(t * 9/5 + 32)` |
| `WeatherCard.GetTempMonotone` | src/WeatherCard.jsx:30-32 | for a fixed unit, a higher reading never shows a lower number |
| `WeatherCard.ToggleTwiceSameTemp` | src/WeatherCard.jsx:28-32 | pressing the unit button twice shows the same number for the same reading |
| `WeatherCard.UnitsAgree` | src/WeatherCard.jsx:30-32 | for every reading, the number shown in F is within 1.4 degrees of the number shown in C converted by `t * 9/5 + 32` |
| `WeatherCard.GetTempReferencePoints` | src/WeatherCard.jsx:30-32 | whole-degree readings show unchanged in C; 0, 100 and -40 degrees C show as 32, 212 and -40 in F |
| `WeatherCard.Classify` | src/WeatherCard.jsx:35-41 | a code is Storm iff it is in [200,300), Rain iff in [300,600), Snow iff in [600,700), Clear iff it equals 800, and Cloud iff it is below 200, in [700,800) or above 800 |
| `WeatherCard.PaletteInjective` | src/WeatherCard.jsx:36-40 | the five gradients are pairwise distinct, so the background determines the category |
| `WeatherCard.GetGradient` | src/WeatherCard.jsx:35-41 | `getGradient`'s if-chain, as written, returns the gradient of the code's category for every integer |
| `WeatherCard.IsNight` | src/WeatherCard.jsx:45-46 | the night flag holds iff `'n'` occurs at some position of the icon code |
| `WeatherCard.GetWeatherIcon` | src/WeatherCard.jsx:44-56 | `getWeatherIcon`'s if-chain, as written, returns the icon of the code's category, and the night flag decides only between sun and moon for Clear |
| `WeatherCard.GradientAndIconAgree` | src/WeatherCard.jsx:35-56 | for every code and icon string, the icon's category is the code's category and the background is that category's gradient |
| `WeatherCard.StormCodes` | src/WeatherCard.jsx:36-48 | codes in [200,300) get the thunderstorm gradient and the bolt, whatever the icon string |
| `WeatherCard.RainCodes` | src/WeatherCard.jsx:37-49 | codes in [300,600) get the rain gradient and the rain cloud |
| `WeatherCard.SnowCodes` | src/WeatherCard.jsx:38-50 | codes in [600,700) get the snow gradient and the snowflake |
| `WeatherCard.ClearCode` | src/WeatherCard.jsx:39-53 | code 800 gets the clear gradient; the icon is the moon iff the icon string contains `'n'`, and the sun otherwise |
| `WeatherCard.DefaultCodes` | src/WeatherCard.jsx:40-55 | every code below 200, in [700,800) or above 800 gets the default gradient and the cloud |
| `WeatherCard.IconStringMattersOnlyWhenClear` | src/WeatherCard.jsx:44-56 | for any code other than 800, the icon does not depend on the icon string |
| `WeatherCard.IconStringMattersWhenClear` | src/WeatherCard.jsx:51-53 | for code 800, icon code `01d` draws the sun and `01n` draws the moon |
| `WeatherCard.IsNightOnOwmCodes` | src/WeatherCard.jsx:45-46 | on icon codes made of two digits and then `d` or `n`, "contains `n`" is the same as "ends in `n`" |
| `WeatherCard.IsNightNotOnlyAtEnd` | src/WeatherCard.jsx:45-46 | an `'n'` that is not at the end still counts as night (`"nd"`) |
| `WeatherCard.ClearDaySnapshot` | src/WeatherCard.jsx:30-53 | a reading of 20 degrees (feels like 18) with code 800 and icon `01d`, in the initial unit, shows 20 and 18, the sun and the clear gradient |

## Left out

- The geolocation request, the `fetch` to the weather endpoint and the `console.error` failure path (src/WeatherCard.jsx:12-26) are left out. They are browser I/O and asynchronous callbacks.
- React's `useState` cells and re-rendering (src/WeatherCard.jsx:6-8) are left out. Only the unit's initial value (`InitialUnit`) and its toggle are modelled. The weather and loading cells are not.
- The loading branch (src/WeatherCard.jsx:58) and the "Switch to" label's choice of the other unit (src/WeatherCard.jsx:101) are left out. They are the only decisions in the rendering code. The label names the unit `ToggleUnit` would give.
- The JSX layout, the `react-parallax-tilt` wrapper, `StatBox`, and the humidity and wind text (src/WeatherCard.jsx:60-125) are left out. They are presentation that passes values to the modelled helpers or prints them.
- Icons are an abstract datatype. The `react-icons` components and their colour classes are not modelled. Gradients are the exact class strings the component returns.
- The unit is a two-valued datatype. The component stores the strings `'C'` and `'F'` and treats anything other than `'C'` as Fahrenheit. Since only those two strings are ever stored, the difference is not observable.
- Temperatures are exact `real`s. IEEE-754 rounding of `tempC * 9/5 + 32`, `NaN` from a missing field, and `Math.round`'s negative zero are not modelled.
- Condition codes are `int`. In the component, a missing `weather[0].id` (`undefined`) fails every comparison and gets the default gradient and the cloud. A fractional code is compared as a number. The model cannot represent either case.
- Dafny strings are sequences of Unicode characters, while JavaScript strings are sequences of UTF-16 code units. `Includes` follows JavaScript for every pattern without surrogate pairs. For the single pattern `"n"` that the component uses, the two agree on every string.
- `iconString` is always a string. A missing `icon` field would make `includes` throw, which is not modelled.
