/** The two weather-code lookups of bot.py (`_get_weather_emoji`, `_get_weather_description`),
    keyed by the WMO weather interpretation codes (WMO code table 4677) that Open-Meteo reports. */
module Weather {

  /** The emoji for a code outside every listed group. */
  const Overcast := "☁️"

  /** The description for a code outside the table. */
  const UnknownWeather := "Неизвестная погода"

  /** `_get_weather_emoji`: one emoji per group of codes, checked in order. */
  function WeatherEmoji(code: int): (r: string)
    ensures r != Overcast <==> code in Descriptions
  {
    if code in [0] then "☀️"
    else if code in [1, 2, 3] then "🌤️"
    else if code in [45, 48] then "🌫️"
    else if code in [51, 53, 55, 56, 57] then "🌦️"
    else if code in [61, 63, 65, 66, 67, 80, 81, 82] then "🌧️"
    else if code in [71, 73, 75, 77, 85, 86] then "🌨️"
    else if code in [95, 96, 99] then "⛈️"
    else Overcast
  }

  /** The Russian description of each code the table knows. */
  const Descriptions: map<int, string> := map[
    0 := "Ясно",
    1 := "Преимущественно ясно",
    2 := "Переменная облачность",
    3 := "Пасмурно",
    45 := "Туман",
    48 := "Замерзающий туман",
    51 := "Легкая морось",
    53 := "Умеренная морось",
    55 := "Сильная морось",
    56 := "Легкая замерзающая морось",
    57 := "Сильная замерзающая морось",
    61 := "Небольшой дождь",
    63 := "Умеренный дождь",
    65 := "Сильный дождь",
    66 := "Легкий замерзающий дождь",
    67 := "Сильный замерзающий дождь",
    71 := "Небольшой снег",
    73 := "Умеренный снег",
    75 := "Сильный снег",
    77 := "Снежные зерна",
    80 := "Небольшой ливень",
    81 := "Умеренный ливень",
    82 := "Сильный ливень",
    85 := "Небольшая снежная буря",
    86 := "Сильная снежная буря",
    95 := "Гроза",
    96 := "Гроза с градом",
    99 := "Сильная гроза с градом"
  ]

  /** `_get_weather_description`: `descriptions.get(code, "Неизвестная погода")`. The fallback is
      given exactly to the codes without a table entry, and these are exactly the codes the emoji
      classifier shows as overcast: the two lookups cover the same codes. */
  function WeatherDescription(code: int): (r: string)
    ensures r == UnknownWeather <==> code !in Descriptions
    ensures r == UnknownWeather <==> WeatherEmoji(code) == Overcast
  {
    if code in Descriptions then Descriptions[code] else UnknownWeather
  }
}
