/**
 * The pure helpers of the `WeatherCard` component: the display unit and its
 * toggle, the temperature shown in that unit, and the background gradient and
 * icon chosen from an OpenWeatherMap condition code.
 */
module WeatherCard {
  import opened JsRuntime

  // ---------------------------------------------------------------------------
  // Display unit
  // ---------------------------------------------------------------------------

  /** The temperature scale the card shows; the component stores it as 'C' or 'F'. */
  datatype Unit = C | F

  /** The unit the card starts in. */
  const InitialUnit: Unit := C

  /** `toggleUnit`: the button switches to the other scale. */
  function ToggleUnit(u: Unit): (v: Unit)
    ensures v != u
  {
    if u == C then F else C
  }

  /** Toggling twice returns to the unit one started from. */
  lemma ToggleTwice(u: Unit)
    ensures ToggleUnit(ToggleUnit(u)) == u
  {
  }

  // ---------------------------------------------------------------------------
  // Temperature
  // ---------------------------------------------------------------------------

  /** Degrees Fahrenheit for a temperature in degrees Celsius. */
  function ToFahrenheit(tempC: real): (tempF: real) {
    tempC * 9.0 / 5.0 + 32.0
  }

  /** A Celsius temperature expressed in unit `u`, before rounding. */
  function InUnit(u: Unit, tempC: real): (t: real) {
    match u
    case C => tempC
    case F => ToFahrenheit(tempC)
  }

  /**
   * `getTemp`: the whole number of degrees the card shows for a Celsius
   * reading, i.e. the integer closest to the reading in the current unit,
   * ties going up.
   */
  function GetTemp(u: Unit, tempC: real): (r: int)
    ensures ClosestIntegral(InUnit(u, tempC), r)
  {
    if u == C then Round(tempC) else Round((tempC * 9.0 / 5.0) + 32.0)
  }

  /** The displayed value is Math.round of the reading, converted when the unit is F. */
  lemma GetTempByUnit(tempC: real)
    ensures GetTemp(C, tempC) == Round(tempC)
    ensures GetTemp(F, tempC) == Round(ToFahrenheit(tempC))
  {
  }

  /** For a fixed unit, a warmer reading never shows a lower number. */
  lemma GetTempMonotone(u: Unit, t1: real, t2: real)
    requires t1 <= t2
    ensures GetTemp(u, t1) <= GetTemp(u, t2)
  {
  }

  /** Pressing the unit button twice shows the same number again. */
  lemma ToggleTwiceSameTemp(u: Unit, tempC: real)
    ensures GetTemp(ToggleUnit(ToggleUnit(u)), tempC) == GetTemp(u, tempC)
  {
  }

  /**
   * The two displays never drift far apart: the Fahrenheit number differs
   * from the converted Celsius number by at most 1.4 degrees.
   */
  lemma UnitsAgree(tempC: real)
    ensures -1.4 <= GetTemp(F, tempC) as real - ToFahrenheit(GetTemp(C, tempC) as real) <= 1.4
  {
  }

  /** Whole-degree readings are shown unchanged in C, and the familiar fixed points in F. */
  lemma GetTempReferencePoints(k: int)
    ensures GetTemp(C, k as real) == k
    ensures GetTemp(F, 0.0) == 32
    ensures GetTemp(F, 100.0) == 212
    ensures GetTemp(F, -40.0) == -40
  {
  }

  // ---------------------------------------------------------------------------
  // Condition codes
  // ---------------------------------------------------------------------------

  /** The five kinds of weather the card distinguishes. */
  datatype Category = Storm | Rain | Snow | Clear | Cloud

  /**
   * The card's classification of a condition code: first match among the
   * half-open ranges [200,300), [300,600), [600,700) and the single code
   * 800; every other integer falls through to Cloud.
   */
  function Classify(id: int): (c: Category)
    ensures c == Storm <==> 200 <= id < 300
    ensures c == Rain <==> 300 <= id < 600
    ensures c == Snow <==> 600 <= id < 700
    ensures c == Clear <==> id == 800
    ensures c == Cloud <==> id < 200 || 700 <= id < 800 || 800 < id
  {
    if 200 <= id < 300 then Storm
    else if 300 <= id < 600 then Rain
    else if 600 <= id < 700 then Snow
    else if id == 800 then Clear
    else Cloud
  }

  // ---------------------------------------------------------------------------
  // Background gradient
  // ---------------------------------------------------------------------------

  const ThunderstormGradient: string := "from-gray-900 to-purple-900"
  const RainGradient: string := "from-blue-700 to-blue-900"
  const SnowGradient: string := "from-blue-100 to-gray-200 text-gray-800"
  const ClearGradient: string := "from-orange-400 to-rose-500"
  const DefaultGradient: string := "from-gray-700 to-gray-900"

  /** The CSS classes of the background for each category. */
  function Palette(c: Category): (g: string) {
    match c
    case Storm => ThunderstormGradient
    case Rain => RainGradient
    case Snow => SnowGradient
    case Clear => ClearGradient
    case Cloud => DefaultGradient
  }

  /** Different categories get different backgrounds, so the background names the category. */
  lemma PaletteInjective(c1: Category, c2: Category)
    requires Palette(c1) == Palette(c2)
    ensures c1 == c2
  {
  }

  /** `getGradient`, with its if-chain as written: the palette of the code's category. */
  function GetGradient(id: int): (g: string)
    ensures g == Palette(Classify(id))
  {
    if id >= 200 && id < 300 then ThunderstormGradient
    else if id >= 300 && id < 600 then RainGradient
    else if id >= 600 && id < 700 then SnowGradient
    else if id == 800 then ClearGradient
    else DefaultGradient
  }

  // ---------------------------------------------------------------------------
  // Icon
  // ---------------------------------------------------------------------------

  /** The react-icons component the card draws for the current condition. */
  datatype Icon = Bolt | CloudRain | Snowflake | Sun | Moon | CloudIcon

  /**
   * `isNight`: the icon code contains an 'n' anywhere. (The remark beside it
   * speaks of an 'n' at the end; the test itself looks at every position.)
   */
  function IsNight(iconString: string): (night: bool)
    ensures night <==> exists i :: 0 <= i < |iconString| && iconString[i] == 'n'
  {
    IncludesSingleChar(iconString, 'n');
    Includes(iconString, "n")
  }

  /** The icon for a category; only Clear depends on the time of day. */
  function IconFor(c: Category, night: bool): (icon: Icon) {
    match c
    case Storm => Bolt
    case Rain => CloudRain
    case Snow => Snowflake
    case Clear => if night then Moon else Sun
    case Cloud => CloudIcon
  }

  /** The category an icon stands for. */
  function IconCategory(icon: Icon): (c: Category) {
    match icon
    case Bolt => Storm
    case CloudRain => Rain
    case Snowflake => Snow
    case Sun => Clear
    case Moon => Clear
    case CloudIcon => Cloud
  }

  /**
   * `getWeatherIcon`, with its if-chain as written: the icon of the code's
   * category, where the night flag decides only between sun and moon.
   */
  function GetWeatherIcon(weatherCode: int, iconString: string): (icon: Icon)
    ensures icon == IconFor(Classify(weatherCode), IsNight(iconString))
  {
    var isNight := IsNight(iconString);
    if weatherCode >= 200 && weatherCode < 300 then Bolt
    else if weatherCode >= 300 && weatherCode < 600 then CloudRain
    else if weatherCode >= 600 && weatherCode < 700 then Snowflake
    else if weatherCode == 800 then (if isNight then Moon else Sun)
    else CloudIcon
  }

  // ---------------------------------------------------------------------------
  // Properties of the two mappings together
  // ---------------------------------------------------------------------------

  /** Background and icon always name the same category. */
  lemma GradientAndIconAgree(id: int, iconString: string)
    ensures IconCategory(GetWeatherIcon(id, iconString)) == Classify(id)
    ensures GetGradient(id) == Palette(IconCategory(GetWeatherIcon(id, iconString)))
  {
  }

  /** Codes in [200,300): thunderstorm background and the bolt, whatever the icon code. */
  lemma StormCodes(id: int, iconString: string)
    requires 200 <= id < 300
    ensures GetGradient(id) == ThunderstormGradient
    ensures GetWeatherIcon(id, iconString) == Bolt
  {
  }

  /** Codes in [300,600): rain background and the rain cloud. */
  lemma RainCodes(id: int, iconString: string)
    requires 300 <= id < 600
    ensures GetGradient(id) == RainGradient
    ensures GetWeatherIcon(id, iconString) == CloudRain
  {
  }

  /** Codes in [600,700): snow background and the snowflake. */
  lemma SnowCodes(id: int, iconString: string)
    requires 600 <= id < 700
    ensures GetGradient(id) == SnowGradient
    ensures GetWeatherIcon(id, iconString) == Snowflake
  {
  }

  /** Code 800: clear background; the moon exactly when the icon code has an 'n', else the sun. */
  lemma ClearCode(iconString: string)
    ensures GetGradient(800) == ClearGradient
    ensures GetWeatherIcon(800, iconString) == Moon <==> exists i :: 0 <= i < |iconString| && iconString[i] == 'n'
    ensures GetWeatherIcon(800, iconString) == Sun <==> !exists i :: 0 <= i < |iconString| && iconString[i] == 'n'
  {
  }

  /** Every other integer, below 200, in [700,800) or above 800, gets the default background and the cloud. */
  lemma DefaultCodes(id: int, iconString: string)
    requires id < 200 || 700 <= id < 800 || 800 < id
    ensures GetGradient(id) == DefaultGradient
    ensures GetWeatherIcon(id, iconString) == CloudIcon
  {
  }

  /** The icon code matters only for code 800. */
  lemma IconStringMattersOnlyWhenClear(id: int, s1: string, s2: string)
    requires id != 800
    ensures GetWeatherIcon(id, s1) == GetWeatherIcon(id, s2)
  {
  }

  /** For code 800 it does matter: a day code and a night code draw different icons. */
  lemma IconStringMattersWhenClear()
    ensures GetWeatherIcon(800, "01d") == Sun
    ensures GetWeatherIcon(800, "01n") == Moon
  {
  }

  /** An OpenWeatherMap icon code: two digits, then 'd' for day or 'n' for night. */
  predicate IsOwmIconCode(s: string) {
    |s| == 3 && '0' <= s[0] <= '9' && '0' <= s[1] <= '9' && (s[2] == 'd' || s[2] == 'n')
  }

  /** On well-formed codes, "contains an 'n'" and "ends in 'n'" agree. */
  lemma IsNightOnOwmCodes(s: string)
    requires IsOwmIconCode(s)
    ensures IsNight(s) <==> s[2] == 'n'
  {
  }

  /** On other strings they do not: an 'n' before the end also counts as night. */
  lemma IsNightNotOnlyAtEnd()
    ensures IsNight("nd")
  {
  }

  /**
   * The reading OpenWeatherMap reports as code 800, icon "01d", 20 degrees
   * and feels-like 18 degrees, in the initial unit: 20 and 18 shown, the sun
   * on the clear background.
   */
  lemma ClearDaySnapshot()
    ensures GetTemp(InitialUnit, 20.0) == 20
    ensures GetTemp(InitialUnit, 18.0) == 18
    ensures GetWeatherIcon(800, "01d") == Sun
    ensures GetGradient(800) == ClearGradient
  {
  }
}
