# DL3000 battery-test scripts, modelled in Dafny

This project models three parts of a small set of scripts around a Rigol DL3000 electronic load.

**The `DL3000` command wrapper** (`dl3000.dfy`)
- A `Transport` class stands for the open VISA resource. It keeps a log of every command written and every query sent, in order. It also holds a script of replies for the queries to come.
- An `Instrument` class wraps one transport. Every setter appends its SCPI text to the log. Every reader sends one query and parses the reply: it keeps the text before the first newline, and a numeric reader requires text that `float` accepts. `is_enabled` compares the stripped reply with `"1"`.
- `set_battery_vstop` keys the stop voltage in on the front panel. It formats the voltage with three decimals and sends one key press per digit (key 20 + d) or point (key 30). The key presses are framed by debug mode on and off, the battery mode, two menu presses and OK.

**The timestamp handling of the report** (`calendar.dfy`, `charts.dfy`)
- `plot_battery_data` first checks the required columns, then decides whether the log's timestamps carry dates.
- Timestamps are parsed as `DD-MM-YYYY HH:MM:SS` or `HH:MM:SS`. For a time-only log, the day is inferred: it starts today and moves one day forward each time the clock goes backwards.
- The samples are sorted by instant. The x-axis labels are chosen: the bare clock, date plus clock, or the clock marked "(вчера)" ("yesterday"). The title shows one date or a range.
- Dates follow Python's proleptic Gregorian calendar. They are checked against an independent day count.

**The device scan and `main`** (`connect.py`, modelled in `connect.dfy`)
- `find_dl3000_devices` keeps, in order, the resources whose stripped `*IDN?` reply contains both `RIGOL` and `DL30`. It closes the other resources that answered, and skips those whose open or query raised.
- `main` sends reset, the CURRENT function, 50 mA and input-on to the first load found. It then reads the voltage and switches the input off.

`wrappers.dfy` holds `Option` and `Result`. `text.dfy` holds the digit and whitespace helpers: Python's `str.strip()` and `x in s`.

## Model

| member | source | states |
|---|---|---|
| Dl3000.Transport.Write | LabInstruments/DL3000.py:43-45 | `inst.write`: logs the command and leaves the reply script alone |
| Dl3000.Transport.Query | LabInstruments/DL3000.py:19-21 | `inst.query`: logs the query and consumes the next scripted reply; with none left it fails |
| Dl3000.FirstLine | LabInstruments/DL3000.py:19-41 | `partition("\n")[0]` is a prefix of the reply with no newline in it, and the reply continues with a newline if anything is cut |
| Dl3000.IsFloatText | LabInstruments/DL3000.py:19-38 | the texts `float` accepts: no ASCII information separator (U+001C..U+001F) anywhere, and after stripping whitespace an optional sign, then a decimal with optional point and exponent, or `inf`, `infinity` or `nan` in any case |
| Dl3000.FloatIgnoresSurroundingSpace | LabInstruments/DL3000.py:21 | surrounding a trimmed text with the whitespace `float` strips (tab to carriage return, space, non-ASCII whitespace) changes nothing, while an information separator on either side makes `float` reject it |
| Dl3000.ReadingValue | LabInstruments/DL3000.py:19-41 | a reader returns the first line; a numeric reader fails with that line exactly when `float` would reject it |
| Dl3000.StatusIgnored | LabInstruments/DL3000.py:20-21 | the status field after the newline is discarded unchecked: replies differing only there read the same |
| Dl3000.Instrument.Measure | LabInstruments/DL3000.py:19-41 | sends the reading's query, consumes one scripted reply, and returns the parsed value; with no reply left it fails |
| Dl3000.EnabledReplyExactly | LabInstruments/DL3000.py:52 | `is_enabled` is true exactly for replies that are "1" surrounded by whitespace |
| Dl3000.Instrument.IsEnabled | LabInstruments/DL3000.py:47-52 | sends `:SOURCE:INPUT:STAT?` and reports whether the stripped reply is "1" |
| Dl3000.Instrument.SetCcSlewRate | LabInstruments/DL3000.py:43-45 | appends exactly `:SOURCE:CURRENT:SLEW <slew>` |
| Dl3000.Instrument.Enable | LabInstruments/DL3000.py:54-59 | appends exactly `:SOURCE:INPUT:STAT ON` |
| Dl3000.Instrument.Disable | LabInstruments/DL3000.py:61-66 | appends exactly `:SOURCE:INPUT:STAT OFF` |
| Dl3000.Instrument.SetMode | LabInstruments/DL3000.py:68-72 | appends exactly `:SOURCE:FUNCTION <mode>` (default CC) |
| Dl3000.Instrument.SetAppMode | LabInstruments/DL3000.py:74-78 | appends exactly `:SOURCE:FUNCTION:MODE <mode>` (default BATTERY) |
| Dl3000.CharKeys | LabInstruments/DL3000.py:111-117 | `.` is `:SYSTEM:KEY 30`, an ASCII digit d is `:SYSTEM:KEY 2d`, any other character emits nothing |
| Dl3000.EntryKeys | LabInstruments/DL3000.py:111-117 | the key presses of a text, character by character in order; stated by EntryKeysCount, EntryKeysRange, EntryRoundTrip, EntryInjective and Instrument.KeyIn |
| Dl3000.EntryKeysCount | LabInstruments/DL3000.py:111-117 | one key press per digit or point, none for other characters |
| Dl3000.EntryKeysRange | LabInstruments/DL3000.py:111-117 | every key pressed is a digit key (20..29) or the point key (30) |
| Dl3000.EntryRoundTrip | LabInstruments/DL3000.py:110-117 | decoding the key presses of a digits-and-points text gives the text back |
| Dl3000.EntryInjective | LabInstruments/DL3000.py:110-117 | different digits-and-points texts produce different key sequences |
| Dl3000.UnsignedVoltageText | LabInstruments/DL3000.py:110 | `f"{v:.3f}"`: whole volts, a point, exactly three decimals, all enterable on the keypad |
| Dl3000.VoltageText | LabInstruments/DL3000.py:110 | three decimals after the point; a negative value is the unsigned text with a leading minus |
| Dl3000.VoltageEntry | LabInstruments/DL3000.py:110-117 | the key presses sent for a voltage are those of its unsigned formatted value and decode back to that text; the minus sign is lost |
| Dl3000.UnsignedVoltageValue | LabInstruments/DL3000.py:110 | the formatted value, whole volts and three decimals, reads back as the millivolts it was made from |
| Dl3000.VstopCommands | LabInstruments/DL3000.py:96-124 | the whole stop-voltage sequence; stated by VstopFraming and VstopEntersValue, and sent by Instrument.SetBatteryVstop |
| Dl3000.VstopFraming | LabInstruments/DL3000.py:96-124 | debug on, battery mode, key 16 twice, the value keys, key 41, debug off: 6 commands plus one per digit or point |
| Dl3000.VstopEntersValue | LabInstruments/DL3000.py:96-124 | for a non-negative voltage every character is keyed in and the keyed part decodes to the formatted value |
| Dl3000.Instrument.KeyIn | LabInstruments/DL3000.py:111-117 | the character loop appends exactly the key presses of the text, in order |
| Dl3000.Instrument.SetBatteryVstop | LabInstruments/DL3000.py:82-124 | appends exactly the stop-voltage sequence and consumes no reply |
| Dl3000.Instrument.SetCcVlim | LabInstruments/DL3000.py:126-130 | appends exactly `:SOURCE:CURR:VLIM  <vlim>` (two spaces) |
| Dl3000.Instrument.QueryMode | LabInstruments/DL3000.py:132-137 | sends `:SOURCE:FUNCTION?` and returns the stripped reply |
| Dl3000.Instrument.SetCcCurrent | LabInstruments/DL3000.py:139-143 | appends exactly `:SOURCE:CURRENT:LEV:IMM <current>` |
| Dl3000.Instrument.SetCpPower | LabInstruments/DL3000.py:145-149 | appends exactly `:SOURCE:POWER:LEV:IMM <power>` |
| Dl3000.Instrument.SetCpIlim | LabInstruments/DL3000.py:151-155 | sends the limit as a query, so it consumes one scripted reply and returns it |
| Dl3000.Instrument.Cc | LabInstruments/DL3000.py:157-164 | appends mode CC, the current level and input-on, whatever `activate` says |
| Dl3000.Instrument.Cp | LabInstruments/DL3000.py:166-173 | appends mode CP, the power level and input-on, whatever `activate` says |
| Dl3000.ConfigureAsWritten | LabInstruments/DL3000.py:157-173 | `cc`/`cp` as written: mode, level, input-on, with `activate` unused; contrasted with the docstring by ActivateIgnored |
| Dl3000.ActivateIgnored | LabInstruments/DL3000.py:157-173 | with `activate` false the input is still switched on; the flag changes nothing |
| Dl3000.ConfigureAsDocumented | LabInstruments/DL3000.py:157-173 | the documented behaviour: mode and level first, then input-on exactly when `activate` is set and nothing else: three commands or two |
| Dl3000.Instrument.CcAsDocumented | LabInstruments/DL3000.py:157-164 | sends the documented constant-current set-up |
| Dl3000.Instrument.CpAsDocumented | LabInstruments/DL3000.py:166-173 | sends the documented constant-power set-up |
| Dl3000.Instrument.Reset | LabInstruments/DL3000.py:175-176 | appends exactly `*RST` |
| Text.Strip | LabInstruments/DL3000.py:52 | `str.strip()`: the result neither starts nor ends with whitespace and sits in the input between two all-whitespace parts |
| Text.StripExactly | LabInstruments/DL3000.py:52 | stripping `a + t + b` with whitespace-only a, b and a trimmed core t gives t |
| Charts.MissingColumns | charts.py:15-17 | lists exactly the required columns that are absent; empty exactly when all six are present |
| Charts.ParseClock | charts.py:27 | `strptime('%H:%M:%S')`: two-digit hour, minute and second with colons, in range; its round trip with the clock text is ClockRoundTrip and ClockCanonical |
| Charts.ParseDateTime | charts.py:23 | `strptime('%d-%m-%Y %H:%M:%S')` on a valid calendar date; its round trip is DateTimeRoundTrip |
| Charts.HasDatePattern | charts.py:20 | `str.contains(r'\d{2}-\d{2}-\d{4}')`: two digits, a dash, two digits, a dash, four digits somewhere in the text; related to the parsers by DatePatternDetects |
| Charts.AnyHasDate | charts.py:20-22 | `has_date.any()`: some timestamp of the log carries the date pattern |
| Charts.ParseAll | charts.py:23 | a column parses to one value per entry, or fails at the first entry that does not parse |
| Charts.ClockRoundTrip | charts.py:27 | a `HH:MM:SS` text reads back as the time it shows |
| Charts.ClockCanonical | charts.py:27 | the clock parser accepts only the zero-padded text of the time it returns |
| Charts.DateTimeRoundTrip | charts.py:23 | a `DD-MM-YYYY HH:MM:SS` text reads back as the instant it shows |
| Charts.DatePatternDetects | charts.py:20-22 | dated timestamps contain the `dd-dd-dddd` pattern; time-only ones cannot |
| Charts.ParsedDateTimeDetected | charts.py:20-23 | every text the dated parser accepts carries the date pattern, so it takes the dated branch |
| Charts.InferDates | charts.py:26-36 | the rollover loop gives sample i the date `today + Drops(times, i)` and its own time; it fails on an empty column |
| Charts.Drops | charts.py:31-35 | the day offset the rollover loop reaches at sample i; counted by DropsCount |
| Charts.InferredInstants | charts.py:29-35 | sample i is dated today plus its day offset and keeps its own time; its properties are InferredDays, InferredStep, InferredSeconds and InferredSorted |
| Charts.DropsCount | charts.py:31-35 | the day offset of sample i is the number of strict decreases among samples 1..i |
| Charts.InferredDays | charts.py:29-35 | the first sample is dated today, and sample i's day number is today's plus the rollovers up to i |
| Charts.InferredStep | charts.py:31-35 | at a rollover the date moves to the next day and the instant strictly increases; otherwise the date stays and the instant does not decrease |
| Charts.InferredSeconds | charts.py:31-35 | as `day * 86400 + t`, consecutive instants are the clock difference apart, plus a day at a rollover |
| Charts.InferredSorted | charts.py:31-38 | the inferred instants are already sorted |
| Charts.SortInstants | charts.py:38 | the sorted instants are in order and a permutation of the input |
| Charts.SortedUnique | charts.py:38 | two sorted permutations of the same instants are equal, so any sort gives this result |
| Charts.SortKeepsSorted | charts.py:38 | sorting an already sorted sequence changes nothing |
| Charts.MultiDay | charts.py:42 | `nunique() > 1`: two samples have different dates; for sorted samples SortedMultiDay reduces it to the first and last dates |
| Charts.SortedMultiDay | charts.py:42 | for sorted samples, "more than one date" means the first and last dates differ |
| Charts.OneDayPlainLabels | charts.py:41-42 | when all samples share a date every label is the bare `HH:MM:SS` |
| Charts.MarkedIffEarlier | charts.py:46-50 | in a multi-day time-only log a label is marked exactly when its date is before the last sample's; the last label never is |
| Charts.LongDateTextInjective | charts.py:86-88 | different dates have different `%d.%m.%Y` texts |
| Charts.DateRangeShape | charts.py:86-88 | the title shows the first date alone exactly when first and last dates are equal, otherwise `first - last`; for sorted samples those two dates bound every sample's date, and a single date is shown exactly when the log spans one day |
| Charts.DateRange | charts.py:86-88 | the title's date part, built from the first and last samples' `%d.%m.%Y` texts; its shape is stated by DateRangeShape |
| Charts.DatedLabelShows | charts.py:44 | in a dated multi-day log, label i is 20 characters: two-digit day, month and year of sample i, a `<br>`, and a clock that reads back as sample i's time |
| Charts.TimeLabels | charts.py:41-50 | one label per sample; which form each takes is stated by OneDayPlainLabels, DatedLabelShows and MarkedIffEarlier |
| Charts.PlotBatteryData | charts.py:12-106 | missing columns fail with the fixed missing-columns error; a dated log is parsed and sorted; a time-only log gets inferred dates and stays in order; unparsable or empty logs fail |
| Calendar.NextDate | charts.py:33 | `date + timedelta(days=1)` is a valid, strictly later date |
| Calendar.NextDateCounts | charts.py:33 | the next date is the next day number: no day is skipped or repeated |
| Calendar.AddDays | charts.py:33 | k repeated `+ timedelta(days=1)` steps; AddDaysCounts and AddDaysIncreasing state its effect |
| Calendar.AddDaysCounts | charts.py:31-35 | adding k days moves the day number by exactly k |
| Calendar.AddDaysIncreasing | charts.py:31-35 | adding more days gives a strictly later date |
| Connect.Identify | connect.py:12-13 | the definition of lines 12-13: a device, holding the stripped reply, exactly when a reply exists and contains both `RIGOL` and `DL30`; its effect on the scan is stated by MatchingSound, MatchingComplete and RejectedClosed |
| Connect.FindDl3000Devices | connect.py:4-24 | the scan returns the matching devices and closes the rejected resources, both in listing order |
| Connect.FilterMapPositions | connect.py:9-22 | the kept results come from strictly increasing positions, exactly those whose element is accepted |
| Connect.Matching | connect.py:9-18 | the devices the scan keeps, in listing order; stated by MatchingPositions, MatchingSound and MatchingComplete |
| Connect.Closed | connect.py:19-20 | the resources the scan closes, in listing order; stated by RejectedClosed and ScanAccounts |
| Connect.MatchingPositions | connect.py:9-22 | the devices are a subsequence of the listed resources, in order, holding exactly the matching ones; a raising resource is skipped |
| Connect.MatchingSound | connect.py:12-18 | every device found is a DL3000 that a listed resource answered for |
| Connect.MatchingComplete | connect.py:11-18 | every listed resource that answered as a DL3000 is found |
| Connect.RejectedClosed | connect.py:19-20 | a resource answering as something else is closed and not returned |
| Connect.ScanAccounts | connect.py:9-22 | every resource is found, closed or failed, exactly once; no more devices than resources |
| Connect.RunMain | connect.py:26-65 | no device means no command and no reply consumed; otherwise reset, CURRENT, 0.05, input-on and the voltage query, which takes the next scripted reply if there is one, then input-off only if the reading succeeded |

## Left out

- The VISA layer (pyvisa, the resource manager, `open_resource`) is not modelled. A scan is given as the list of resources, each with its `*IDN?` reply or the fact that opening or querying raised.
- `Transport.Write`: a write never fails in the model. Only a query can fail, when the reply script is exhausted. So a VISA error on a write is not modelled.
- Dl3000.ReadingValue: the value is kept as the validated text, not converted to a floating-point number. The `float` grammar accepts digits with an optional point and exponent, a sign, surrounding whitespace, `inf`, `infinity` and `nan`. Underscores between digits and non-ASCII digits are not accepted by the model. Whitespace follows `float`: the ASCII information separators U+001C..U+001F, which `str.strip()` removes, make the reading fail.
- Dl3000.Instrument.SetBatteryVstop: the voltage is a whole number of millivolts rather than a float, so rounding a float to three decimals is not modelled. A negative value that rounds to zero (`-0.000`) is not modelled either.
- The `time.sleep` calls in `set_battery_vstop` are left out. Every delay there is zero.
- The figure is not modelled: plotly subplots, traces, axes, HTML output, `fig.show()`, the console messages and the interactive file prompt. Neither is the mean current in the title (`avg_current`).
- Charts.PlotBatteryData: only the timestamp column is modelled. Reordering the other columns with the sort is not modelled, and NaN or non-string timestamps are not modelled.
- Charts.ParseDateTime: the date and the time must be separated by exactly one space, and the day must be two digits. `strptime` turns the space of the format into any run of whitespace (a tab, several spaces) and also accepts a space-padded day such as ` 1`; such logs are drawn by the source but fail with `BadTimestamp` in the model.
- Charts.ParseClock: only two-digit hours, minutes and seconds are accepted. Python's `strptime` also accepts one-digit fields.
- Charts.ParseAll: built on ParseDateTime and ParseClock, it accepts only zero-padded fields; `strptime` also accepts one-digit days and months.
- Charts.PlotBatteryData: failures are `PlotError` values. The missing-columns error carries no names, like the source's fixed message, but an unparsable timestamp is reported by its index rather than by pandas' message text.
- Dl3000.CharKeys: only the ASCII digits 0-9 are keyed. `str.isdigit` is also true of other Unicode digits, but the text keyed in is always `f"{v:.3f}"`, which has only ASCII digits.
- The setters `set_cc_current`, `set_cp_power`, `set_cc_slew_rate`, `set_cc_vlim`, `set_cp_ilim` and `set_mode` take their argument as already formatted text. Python's `str()` of a float is not modelled, so `main`'s `set_cc_current(0.050)` is modelled with the text `0.05` that `str(0.05)` gives.
- Charts.HasDatePattern: `\d` is treated as an ASCII digit. Python's regular expressions also match other Unicode digits.
- Calendar.AddDays: the calendar has no upper year. The overflow past year 9999 in `datetime` is not modelled. Neither is pandas' Timestamp range of 1677-09-21 to 2262-04-11, outside which the source raises.
- Charts.LongDateText: the year is written without padding. This matches `%Y` for every year pandas can hold.
- The day the report calls "today" is a parameter, not read from the clock.
- `logger.py` is not part of this model.

## Findings

| source | as written | input that shows it | evidently intended | confidence | as-written member | corrected member |
|---|---|---|---|---|---|---|
| LabInstruments/DL3000.py:157-173 | `cc` and `cp` always switch the input on and never read `activate` | `cc("1", activate=False)` sends `:SOURCE:INPUT:STAT ON` | the docstring: the load is switched on only if `activate` is true | high, from the docstring; not executed | Dl3000.ActivateIgnored | Dl3000.ConfigureAsDocumented |
