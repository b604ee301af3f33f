# sudoku-stats: the validation models, in Dafny

sudoku-stats is a webhook. It receives the Google Drive id of a screenshot of a finished Sudoku. It asks a language model to read the difficulty and the completion time from the image. It reads the screenshot's capture time from Drive's media metadata, and stores one row per solved puzzle.

Everything the service decides for itself happens in `models.py`:

- the difficulty enum;
- the "MM:SS" to seconds conversion;
- the parser for Drive's "YYYY:MM:DD HH:MM:SS" timestamps;
- the lower-casing of the difficulty;
- the four pydantic models that accept or refuse the JSON coming in.

This project models those as pure Dafny functions and proves what they accept, what they produce and how they fail.

Modules:

- `Wrappers`: `Option` and `Result`.
- `PyText`: the parts of Python's `str` and `int` the models rely on:
  - `str.lower` on ASCII;
  - `str.strip`, with Python's whitespace, the Unicode spaces (U+00A0, U+2028, U+3000 and the rest) included;
  - `str.split` with a one-character separator, keeping empty pieces;
  - `int()` on a string: surrounding C whitespace (\t \n \v \f \r and the space), one sign, ASCII digits with single underscores between them, and at most 4300 digits, CPython's default limit since Python 3.11.
- `Difficulty`: `SudokuDifficulty`, `uncapitalize_string`, and the enum lookup pydantic performs after it.
- `SolveTime`: `get_solved_time_in_seconds`, including Python's order of failure when unpacking `map(int, value.split(":"))` into two names.
- `Timestamp`: `datetime.strptime(value, "%Y:%m:%d %H:%M:%S")`. It follows CPython's `_strptime` in three steps:
  - a match at the start against the regular expression built from the format (`%d` also accepts a space-padded day, and the space becomes `\s+`);
  - the "unconverted data remains" check;
  - the range checks of `date` and `datetime`.
- `TimestampExamples`: concrete timestamps accepted and refused.
- `Models`: a JSON value type and the four models:
  - `WebhookPayload`, `ParsedSudokuResult`, `ImageMetaData`, and `ScreenshotMetadata` with its alias;
  - the error lines of pydantic's ValidationError (field location and error kind);
  - the exceptions that escape validation instead, where a before-validator is given something other than a string;
  - the row `insert_sudoku_result` builds from two validated models.
- `ClaudeReply`: the local steps of reading the model's reply. The step as written is kept next to the corrected one (see Findings).

## Model

| member | source | states |
|---|---|---|
| Difficulty.SudokuDifficulty.Value | models.py:8-11 | Each member's value is non-empty and lower-case. It fits the 20-character difficulty column. |
| Difficulty.FromValue | models.py:8-11 | The enum lookup by value returns only a member whose value is exactly the input. |
| Difficulty.FromValueInverse | models.py:8-11 | Looking up a member's value gives that member, and only its value gives it. |
| Difficulty.ValueInjective | models.py:8-11 | Distinct members have distinct values. |
| PyText.Lower | models.py:28 | `str.lower()` keeps the length and leaves no upper-case letter. |
| Difficulty.Uncapitalize | models.py:27-28 | `lower()` keeps the length and leaves no upper-case letter. |
| PyText.LowerAt | models.py:27-28 | Each character of the lowered string is the lowered character at the same position. |
| PyText.LowerOfLowerCase | models.py:27-28 | A string without upper-case letters is left unchanged by `lower()`. |
| PyText.LowerIdempotent | models.py:27-28 | Lowering twice is the same as lowering once. |
| Difficulty.UncapitalizeIdempotent | models.py:27-28 | `uncapitalize_string` is idempotent. Normalising a lowered string gives the same answer as normalising the original. |
| Difficulty.Normalise | models.py:27-32 | The field validator accepts a label exactly when its lower-case form is some member's value, and then gives that member. |
| Difficulty.NormaliseIff | models.py:27-32 | The difficulty field accepts a string as a given member exactly when it spells that member's value, ignoring the case of each letter. Both directions are proved. |
| Difficulty.NormaliseIgnoresCase | models.py:27-32 | Two strings that agree up to case are normalised alike. |
| Difficulty.ValueIsFixedPoint | models.py:8-11 | A member's value is a fixed point of `uncapitalize_string` and validates back to that member. This value is the string that gets stored. |
| Difficulty.NormaliseHardExamples | models.py:27-32 | "Hard", "HARD" and "hard" all validate as the hard member. |
| Difficulty.NormaliseOtherExamples | models.py:27-32 | "mEdIuM" validates as the medium member and "Easy" as the easy member. |
| Difficulty.NormaliseRejects | models.py:27-32 | "Expert", "hard " and the empty string are refused. |
| PyText.Split | models.py:19 | `split(":")` gives one more piece than there are colons. No piece contains a colon, and joining the pieces with ":" gives back the input. |
| PyText.SplitJoin | models.py:19 | Splitting a join of colon-free pieces gives back those pieces. |
| PyText.SplitFree | models.py:19 | A string without the separator splits into itself alone. |
| PyText.SplitAfterFree | models.py:19 | A colon-free prefix followed by a colon becomes the first piece, and splitting continues after it. |
| PyText.CountConcat | models.py:19 | The number of colons in a concatenation is the sum of the counts of its parts. |
| PyText.CountAbsent | models.py:19 | A string without the character contains it zero times. |
| PyText.Strip | claude_api.py:37 | The stripped string neither starts nor ends with whitespace. |
| PyText.StripLeft | claude_api.py:37 | Stripping the left side leaves a string no longer than the input that does not start with whitespace. |
| PyText.StripLeftSuffix | claude_api.py:37 | Stripping the left side keeps a suffix of the input. |
| PyText.StripLeftDropsSpace | claude_api.py:37 | Every character that stripping the left side removes is whitespace. |
| PyText.StripRight | claude_api.py:37 | Stripping the right side keeps a prefix of the input that does not end with whitespace. |
| PyText.StripRightDropsSpace | claude_api.py:37 | Every character that stripping the right side removes is whitespace. |
| PyText.StripUnspaced | claude_api.py:37 | A string with no whitespace at either end is its own strip. |
| PyText.ParseInt | models.py:19 | `int()` accepts only non-empty text. A run of at most 4300 ASCII digits parses to its decimal value. |
| PyText.ParseIntDigitLimit | models.py:19 | More than 4300 digits make `int()` fail, whatever their value. |
| PyText.ParseIntChars | models.py:19 | `int()` refuses any text holding a character other than a digit, C whitespace, a sign or an underscore, and any text with no digit. |
| PyText.ParseIntRefusesFileSeparator | models.py:19 | The control character \x1c is whitespace to `str.strip` but makes `int()` fail. |
| PyText.NatToDecimal | models.py:19 | Writing n in decimal gives digits whose value is n, with no leading zero. |
| PyText.ParseIntNatToDecimal | models.py:19 | `int()` reads back any decimal written out this way in at most 4300 digits. |
| PyText.ParseIntNegative | models.py:19 | A minus sign in front of a decimal of at most 4300 digits gives its negation. |
| SolveTime.SolvedTimeInSeconds | models.py:18-20 | The conversion succeeds exactly when the value splits on ":" into two pieces that both pass `int()`. The result is then minutes * 60 + seconds. The failure order is stated by the lemmas below. |
| SolveTime.TwoPieces | models.py:18-20 | Two colon-free integer pieces `a:b` give a * 60 + b. |
| SolveTime.InvalidFirstPiece | models.py:19 | A bad first piece is reported as an invalid integer, whatever follows it. |
| SolveTime.InvalidSecondPiece | models.py:19 | With exactly two pieces, a bad second piece is reported as an invalid integer. |
| SolveTime.InvalidSecondOfMore | models.py:19 | When a bad second piece is followed by more pieces, the invalid integer is reported before the piece count. |
| SolveTime.InvalidThirdPiece | models.py:19 | With two good pieces, a bad third piece is reported as an invalid integer before "too many values". |
| SolveTime.ThreeGoodPieces | models.py:19 | Three or more pieces whose first three pass `int()` fail with "too many values". |
| SolveTime.ColonCountRejected | models.py:19 | Any value without exactly one colon is refused. |
| SolveTime.NoColon | models.py:19 | A value without a colon fails as "not enough values", or as an invalid integer if it does not parse. |
| SolveTime.DigitsNonNegative | models.py:18-20 | A value made only of digits and colons never converts to a negative time. |
| SolveTime.RoundTrip | models.py:18-20 | For every n whose minutes take at most 4300 digits, formatting n seconds as `n / 60` ":" `n % 60` and converting it back gives n. |
| SolveTime.WrittenPieces | models.py:18-20 | Beyond `int()`'s 4300-digit limit no bound is placed on either piece: decimal `m:s` gives m * 60 + s, seconds of 60 or more included. |
| SolveTime.OverlongMinutes | models.py:19 | Minutes written in more than 4300 digits are reported as an invalid integer, whatever follows. |
| SolveTime.DigitsHaveNoColon | models.py:19 | An all-digit piece contains no colon. |
| SolveTime.DocumentedExample | claude_api.py:34 | "12:37" converts to 757. |
| SolveTime.SecondsOverflowExample | models.py:18-20 | "1:75" is accepted as 135. |
| SolveTime.OnePieceExample | models.py:19 | "1234" fails with "not enough values". |
| SolveTime.ThreePiecesExample | models.py:19 | "1:02:03" fails with "too many values". |
| SolveTime.NotANumberExample | models.py:19 | "ab:12" fails on the invalid integer "ab". |
| Timestamp.FieldLength | models.py:24 | A matched month, day, hour or minute is a one- or two-character token of its alternation, followed by its separator. |
| Timestamp.SecondLength | models.py:24 | A matched second is one or two digits. |
| Timestamp.SpaceRunIsSpaces | models.py:24 | The `\s+` between the date and the time consumes whitespace only, and all of it. |
| Timestamp.MatchDate | models.py:24 | A date match is four digits, two field tokens and the whitespace that follows. |
| Timestamp.MatchTime | models.py:24 | A time match is three field tokens within the text. |
| Timestamp.MatchFormat | models.py:24 | A match captures six well-formed fields and ends within the text. |
| Timestamp.IsValid | models.py:24 | The range checks of `date` and `datetime` accept only values that the format can write and whose fields lie within its alternations. |
| Timestamp.DaysInMonth | models.py:24 | A month of the Gregorian calendar has 28 to 31 days. |
| Timestamp.YearLength | models.py:24 | A check of the `DaysInMonth` table, which the source never sums: the twelve months add up to 365 days, or 366 in a leap year. |
| Timestamp.LeapYearExamples | models.py:24 | A check of the leap-year rule behind `date`'s range check: 2024 and 2000 are leap years; 2023 and 1900 are not. |
| Timestamp.LeapDayValid | models.py:24 | 29 February passes the range checks of `date` exactly in a leap year from 1 to 9999. |
| Timestamp.ValidInPattern | models.py:24 | Every date and time the range checks accept also lies within the format's alternations. |
| Timestamp.ParseTimestamp | models.py:23-24 | Every timestamp the parser accepts is a real date and time: year 1 to 9999, month 1 to 12, a day of that month, hour at most 23, minute and second at most 59. |
| Timestamp.ParseNoMatch | models.py:23-24 | A zero-padded timestamp with a month, day, hour or minute outside its pattern is no match, whatever text follows. |
| Timestamp.ParseLongSecond | models.py:23-24 | When the other fields match, a second of 62 or more leaves its last digit unconverted, followed by any trailing text. |
| Timestamp.ParseTrailing | models.py:23-24 | When every field matches, any non-empty text after the timestamp is left unconverted. |
| Timestamp.ParseExact | models.py:23-24 | A fully consumed timestamp whose fields match is accepted exactly when it is a valid date and time. Otherwise it is refused as out of range. |
| Timestamp.RoundTrip | models.py:23-24 | Every valid date and time, written as Drive writes it, parses back to itself. |
| Timestamp.ParsedHasFourColons | models.py:24 | Any accepted timestamp contains exactly four colons. |
| Timestamp.MatchHasFourColons | models.py:24 | The matched prefix contains exactly four colons. |
| Timestamp.DateHasTwoColons | models.py:24 | The matched date, with the whitespace after it, contains two colons. |
| Timestamp.TimeHasTwoColons | models.py:24 | The matched time contains two colons. |
| Timestamp.MatchFormatted | models.py:24 | A formatted timestamp matches exactly when all its fields lie in their alternations. The fields are then captured as written. |
| Timestamp.TwoDigitField | models.py:24 | A two-digit month, day, hour or minute is consumed whole exactly when it is in its directive's pattern. |
| Timestamp.TwoDigitSecond | models.py:24 | A two-digit second is consumed whole up to 61. Beyond 61, only its first digit is consumed. |
| Timestamp.Format | models.py:24 | The zero-padded layout is 19 characters long. |
| TimestampExamples.DocumentedExample | models.py:23-24 | "2024:01:15 10:30:00" parses to 15 January 2024, 10:30:00. |
| TimestampExamples.LeapDayAccepted | models.py:23-24 | 29 February of a leap year is accepted. |
| TimestampExamples.CommonYearLeapDayRejected | models.py:23-24 | 29 February of a common year is out of range. |
| TimestampExamples.ThirtiethOfFebruaryRejected | models.py:23-24 | 30 February is out of range. |
| TimestampExamples.YearZeroRejected | models.py:23-24 | Year 0000 is out of range. |
| TimestampExamples.LeapSecondRejected | models.py:23-24 | Second 60 matches the pattern, but `datetime` refuses it. |
| TimestampExamples.MonthThirteenRejected | models.py:23-24 | Month 13 does not match. |
| TimestampExamples.HourTwentyFourRejected | models.py:23-24 | Hour 24 does not match the pattern. |
| TimestampExamples.SecondSeventyFiveRejected | models.py:23-24 | In second "75", "7" is matched and "5" is left unconverted. |
| TimestampExamples.TrailingZoneRejected | models.py:23-24 | A trailing "Z" is left as unconverted data. |
| TimestampExamples.DashSeparatorRejected | models.py:23-24 | An ISO-style "2024-01-15" date does not match. |
| TimestampExamples.MissingTimeRejected | models.py:23-24 | A date with no time does not match. |
| TimestampExamples.IsoSeparatorRejected | models.py:23-24 | A "T" between date and time does not match. |
| TimestampExamples.UnpaddedAccepted | models.py:23-24 | Unpadded fields such as "2024:1:5 1:2:3" are accepted. |
| TimestampExamples.SpacePaddedDayAccepted | models.py:23-24 | The day may be padded with a space ("2024:01: 5 10:30:00"). |
| Models.ValidateWebhookPayload | models.py:14-15 | The payload is accepted exactly when it is an object whose "file_id" is a string. That string is the result. A refusal is always a single error line, never an escaped exception. |
| Models.WebhookIgnoresExtraKeys | models.py:14-15 | Keys other than "file_id" do not change the outcome. |
| Models.DifficultyField | models.py:32 | The difficulty field is valid exactly when it is a string that normalises. It escapes as AttributeError exactly when it is present but not a string. |
| Models.TimeField | models.py:33 | The time field is valid exactly when it is a string that converts. It escapes as AttributeError exactly when it is present but not a string. |
| Models.ValidateParsedSudokuResult | models.py:31-33 | A result is accepted exactly when the difficulty normalises and the time converts. It then holds both values. A non-object is refused with a model_type error. |
| Models.NonStringDifficultyRaises | models.py:32 | A non-string difficulty escapes as AttributeError, whatever the time is. |
| Models.BothFieldsReported | models.py:31-33 | When both string fields fail, both errors are reported, the difficulty first. |
| Models.ParsedResultIgnoresExtraKeys | models.py:31-33 | Undeclared keys do not change the outcome. |
| Models.ValidateImageMetaData | models.py:36-37 | Image metadata is accepted exactly when "time" is a string the timestamp parser accepts. It then holds that timestamp. |
| Models.Nested | models.py:41 | Every nested error line is located under the outer key and keeps its kind and inner location. |
| Models.ValidateScreenshotMetadata | models.py:40-41 | Screenshot metadata is accepted exactly when "imageMediaMetadata" holds an object whose "time" parses. It then holds that time. Every error line of an object input is located under "imageMediaMetadata". |
| Models.ScreenshotTimestampErrorLocation | models.py:36-41 | A refused timestamp is reported at ("imageMediaMetadata", "time") with the parser's error. |
| Models.ScreenshotIgnoresExtraKeys | models.py:40-41 | Only the alias key is read. A field named "metadata" is ignored. |
| Models.ToRow | database.py:95-99 | The stored row keeps the capture time and the seconds. Its difficulty is the member's value: lower-case, at most 20 characters, and validating back to the same member. |
| Models.DocumentedResult | claude_api.py:34 | The reply in the docstring validates to hard, 757 seconds. |
| Models.BadResultReportsBoth | models.py:31-33 | The input difficulty "Expert" with time "ab:12" gives an enum error and an invalid-integer error, in that order. |
| Models.DocumentedScreenshot | models.py:40-41 | Drive metadata carrying "2024:01:15 10:30:00" under the alias, next to other keys, validates to that time. |
| ClaudeReply.ReconstructReply | claude_api.py:36-37 | The decoded text starts with the prefilled brace. It is the completion with only trailing whitespace dropped, and it does not end with whitespace. |
| ClaudeReply.NoBreakSpaceDropped | claude_api.py:37 | A trailing no-break space (U+00A0) is stripped like ASCII whitespace. |
| ClaudeReply.DocumentedCompletion | claude_api.py:34-37 | The documented completion becomes "{" followed by the completion, unchanged. |
| ClaudeReply.ValidateJsonAsWritten | claude_api.py:38 | As written, handing the decoded object to `model_validate_json` always fails with a single json_type error. |
| ClaudeReply.ParseDecodedReply | claude_api.py:38 | Validating the decoded object accepts it exactly when both fields validate, and returns them. |
| ClaudeReply.DocumentedReplyRefusedAsWritten | claude_api.py:34-38 | The documented reply is refused as written. The corrected step reads it as hard, 757 seconds. |

## Findings

| source | as written | input that shows it | evidently intended | confidence | as-written member | corrected member |
|---|---|---|---|---|---|---|
| claude_api.py:38 | `ParsedSudokuResult.model_validate_json(parsed_json)`, where `parsed_json` is the dict `json.loads` returned | the docstring's own reply, `{"difficulty_level": "Hard", "time_to_solve": "12:37"}` once decoded | `ParsedSudokuResult.model_validate(parsed_json)`, giving hard, 757 seconds | high that pydantic 2 refuses a non-text input to `model_validate_json` with a json_type error; not executed | ClaudeReply.ValidateJsonAsWritten, ClaudeReply.DocumentedReplyRefusedAsWritten | ClaudeReply.ParseDecodedReply |

## Left out

- The Google Drive, Secret Manager, metadata-server, Anthropic and PostgreSQL calls (`google_drive.py`, `google_utils.py`, `claude_api.py`, `database.py`) are I/O. The image download, PIL re-encoding, prompt, session handling and commit are not part of this model.
- `main.py` is not part of this model. It is a sequence of those calls behind one API-key string comparison.
- `scripts/generate_google_token.py` is not part of this model: it is an interactive OAuth flow with file I/O.
- `json.loads` is not modelled. The decoded reply and each model's input are given as an already decoded `Json` value. JSON floats are not modelled.
- The `timedelta` conversion of the solve time and the database-assigned `id` and `created_at` are not modelled. `ToRow` keeps the time as whole seconds.
- `Lower` and `Uncapitalize` change only ASCII letters. Python's Unicode case mapping (for example "İ" or "ß") is not modelled.
- `ParseInt`, and with it `ParseIntChars`, models `int()` on ASCII text, around which CPython skips only C whitespace. On a non-ASCII string CPython first maps every Unicode decimal digit and whitespace character to ASCII; that step is not modelled.
- `ParseTimestamp` accepts only ASCII digits, while Python's `\d` also matches the other Unicode decimal digits. Its `\s+` uses the same whitespace as `str.strip`, as Python's `\s` does.
- `ParseInt` uses CPython's default 4300-digit limit. Changing it with `PYTHONINTMAXSTRDIGITS`, `-X int_max_str_digits` or `sys.set_int_max_str_digits` is not modelled; the service never does.
- `ParseTimestamp` does not model the case-insensitive compilation of the format: the format contains no letters, so matching is unaffected.
- The timestamp parser produces a naive `DateTime` with whole seconds. Time zones do not arise with this format.
- Pydantic error messages, `input` and `ctx` fields are not modelled. Only each error line's location and kind are.
- The validation of an `int` field after `get_solved_time_in_seconds` is not modelled separately, because that function always returns an int.
- `Models.DifficultyField` and `Models.TimeField` represent a non-string value (a JSON number, say) as the AttributeError that `lower()` or `split()` raises and pydantic lets through. Its message and traceback are not modelled.
