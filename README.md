# Weather and time tools of the multi-tool agent

This project models the two "tools" that the weather/time agent registers
with its agent framework: `get_weather(city)` and `get_current_time(city)`.
Each tool answers for one city, New York. It compares `city.lower()` with
`"new york"` and returns a dictionary. On success that dictionary is
`{"status": "success", "report": ...}`. Otherwise it is
`{"status": "error", "error_message": ...}`, and the message quotes the city
exactly as it was given.

- `get_weather` answers with a canned report.
- `get_current_time` reads the clock in the `America/New_York` zone. It
  renders the reading with the `strftime` pattern `"%Y-%m-%d %H:%M:%S %Z%z"`
  (directives as in ISO/IEC 9899:2011, section 7.27.3.5). The report is
  `"The current time in " + city + " is " + <timestamp>`.

Both tools are pure apart from the clock read, so the model is made of
functions and lemmas, in four modules:

- `CaseFold` (`case_fold.dfy`): the part of `str.lower()` that decides the
  match, and an independent character-by-character description of
  "lower-cases to `new york`".
- `Decimal` (`decimal.dfy`): zero-padded decimal rendering (`%02d`, `%04d`)
  and its inverse reading.
- `Timestamp` (`timestamp.dfy`): a zone-aware clock reading (`ZonedTime`),
  its rendering with the timestamp pattern, and a parser that undoes it.
- `Agent` (`agent.dfy`): the result type, the two tools, the dictionary
  shape, and the properties that relate the tools to each other and to
  their inputs.

The clock reading is a parameter of `GetCurrentTime`. It is a `ZonedTime`
holding the civil time already converted to `America/New_York`, that zone's
abbreviation at the instant (`EDT` or `EST`), and its UTC offset in minutes.

## Model

| member | source | states |
|---|---|---|
| `CaseFold.Lower` | parent_folder/multi_tool_agent/agent.py:28 | the lower-cased city has the same length as the city, and each character is that character lower-cased |
| `CaseFold.LowerEqualsIff` | parent_folder/multi_tool_agent/agent.py:28 | for a lower-case ASCII key such as "new york": `lower(city) == key` holds exactly when each character of the city is the key's character, its capital, or (for 'k') the Kelvin sign; both directions |
| `Agent.GetWeather` | parent_folder/multi_tool_agent/agent.py:5-42 | success exactly when the city spells "new york" in any case; on success the fixed New York report; otherwise the error "Weather information for '<city>' is not available." with the city unchanged |
| `Agent.GetCurrentTime` | parent_folder/multi_tool_agent/agent.py:45-89 | success exactly when the city spells "new york" in any case; on success "The current time in <city> is " and the formatted reading; otherwise "Sorry, I don't have timezone information for <city>." |
| `Agent.AsDict` | parent_folder/multi_tool_agent/agent.py:30-42 | the returned dictionary always has "status" and exactly one payload key; "report" is present exactly when status is "success", "error_message" exactly when it is "error" |
| `Agent.DictRoundTrip` | parent_folder/multi_tool_agent/agent.py:73-78 | a caller that branches on "status" and reads the payload it names gets back exactly the result |
| `Agent.ErrorsQuoteCity` | parent_folder/multi_tool_agent/agent.py:37-42 | both error messages hold the city verbatim (not trimmed, not lower-cased): it can be cut back out of each message |
| `Agent.SameSupportTest` | parent_folder/multi_tool_agent/agent.py:68-78 | `get_weather` fails exactly when `get_current_time` fails, for every city |
| `Agent.WeatherIgnoresCase` | parent_folder/multi_tool_agent/agent.py:28-36 | two cities with the same lower-case form get the same variant from `get_weather`, and on success the identical result |
| `Agent.TimeIgnoresCase` | parent_folder/multi_tool_agent/agent.py:85-87 | two cities with the same lower-case form get the same variant from `get_current_time`, and on success reports that differ only in the quoted city |
| `Agent.TimeReportRoundTrip` | parent_folder/multi_tool_agent/agent.py:80-89 | for a valid reading the report is the fixed prefix with the city unchanged, then a timestamp of 25 characters plus the abbreviation, and parsing that timestamp gives back the reading |
| `Agent.WeatherErrorSunny` | parent_folder/multi_tool_agent/agent.py:39-42 | the weather error contains the word "sunny" exactly when the city does |
| `Agent.WeatherExamplesNewYork` | parent_folder/multi_tool_agent/agent.py:20-22 | "New York", "new york", "NEW YORK" and "NEW YOR" with a Kelvin-sign K all get the same canned report |
| `Agent.WeatherExampleBeijing` | parent_folder/multi_tool_agent/agent.py:24-25 | "Beijing" gets the error "Weather information for 'Beijing' is not available." |
| `Agent.WeatherExamplesSpacing` | parent_folder/multi_tool_agent/agent.py:28 | " New York" and "NewYork" are errors: the comparison neither trims nor collapses spaces |
| `Agent.TimeExampleNewYork` | parent_folder/multi_tool_agent/agent.py:61-62 | New York at 2023-04-01 14:30:45 EDT (offset -240 minutes) gives "The current time in New York is 2023-04-01 14:30:45 EDT-0400" |
| `Agent.TimeExampleTokyo` | parent_folder/multi_tool_agent/agent.py:64-65 | "Tokyo" gets the error "Sorry, I don't have timezone information for Tokyo." whatever the clock reads |
| `Timestamp.FormatLayout` | parent_folder/multi_tool_agent/agent.py:84-86 | for a valid reading, "%Y-%m-%d %H:%M:%S %Z%z" gives 19 characters of date and time, a space, the abbreviation and a 5-character offset (length 19 + 1 + abbreviation + 5) |
| `Timestamp.FormatOffsetLayout` | parent_folder/multi_tool_agent/agent.py:86 | `%z` is a sign ('-' exactly for negative offsets, '+' otherwise) and 4 digits whose HH and MM read back as the offset's hours and minutes |
| `Timestamp.FieldsRoundTrip` | parent_folder/multi_tool_agent/agent.py:86 | "%Y-%m-%d" and "%H:%M:%S" each have fixed width and read back as their three fields |
| `Timestamp.ParseFormat` | parent_folder/multi_tool_agent/agent.py:86 | parsing the rendered timestamp of a valid reading gives back that reading, abbreviation and offset included |
| `Timestamp.FormatInjective` | parent_folder/multi_tool_agent/agent.py:86 | two valid readings that render to the same text are the same reading |
| `Timestamp.FormatExample` | parent_folder/multi_tool_agent/agent.py:62 | the reading of 2023-04-01 14:30:45 EDT renders as "2023-04-01 14:30:45 EDT-0400" |
| `Decimal.ZeroPadRoundTrip` | parent_folder/multi_tool_agent/agent.py:86 | a number below 10^width is rendered as exactly `width` digits that read back as the number |
| `Decimal.ZeroPadWide` | parent_folder/multi_tool_agent/agent.py:86 | a number that needs more than `width` digits is rendered in full, never truncated |

## Left out

- `root_agent` and the agent framework import (agent.py lines 3 and 92-107) are configuration for an external framework. They have no behaviour of their own.
- The clock read `datetime.datetime.now(tz)` is non-deterministic. The reading is a parameter of `GetCurrentTime` instead.
- The `ZoneInfo("America/New_York")` lookup is not modelled. Neither are the IANA daylight-saving rules behind it. The abbreviation and offset are part of the reading passed in. A missing zone database raises in the source; that is an environment fault, not a result of the tool.
- CaseFold.Lower: models only the mappings that can affect a match with "new york": ASCII capitals and KELVIN SIGN (U+212A, which lower-cases to 'k'). Other non-ASCII characters are left unchanged here, although Python would lower-case them. It also never changes length, whereas Python's mapping can (U+0130 becomes two characters). Neither gap changes which cities match.
- Microseconds and the `fold` attribute of the reading are not modelled, because the pattern prints neither.
- `%Y` is modelled as the year zero-padded to four digits. For readings before year 1000, C libraries differ: some do not pad.
- A `%` inside a zone abbreviation is printed literally by the source. The model copies the abbreviation unchanged, which gives the same text.
- Ordering between two successive clock reads is not modelled; it depends on the clock. Local time also steps back when daylight-saving time ends, so the timestamp text is not monotone.
- It has been said of this code that a weather error never contains the word "sunny". The code does not ensure that: the message quotes the city, so `get_weather("sunny")` mentions it. The model follows the code, and `Agent.WeatherErrorSunny` proves the exact condition.
