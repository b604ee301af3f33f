/**
 * The pydantic models of the webhook: what each accepts, what it builds, and
 * how it reports what it refuses. A before-validator that raises ValueError
 * becomes one error line of a ValidationError, and pydantic goes on to the
 * next field and reports all lines together; any other exception (calling
 * `lower`, `split` or `strptime` on something that is not a string) leaves
 * validation at once. Keys a model does not declare are ignored.
 */
module Models {
  import opened Wrappers
  import opened Difficulty
  import opened SolveTime
  import opened Timestamp
  import TimestampExamples

  /** A decoded JSON document. */
  datatype Json =
    | JNull
    | JBool(b: bool)
    | JInt(i: int)
    | JString(s: string)
    | JArray(items: seq<Json>)
    | JObject(fields: map<string, Json>)

  /** pydantic's error types, as far as these models can produce them. */
  datatype ErrorKind =
    | Missing                             // a declared field is absent
    | ModelType                           // a model was given something other than an object
    | StringType                          // a `str` field was given something other than a string
    | EnumMismatch                        // not one of the enum's values
    | TimeValue(time: TimeError)          // get_solved_time_in_seconds raised ValueError
    | TimestampValue(stamp: TimestampError) // strptime raised ValueError
    | JsonType                            // model_validate_json was given something other than text

  /** One line of a ValidationError: where, and what. */
  datatype LineError = LineError(loc: seq<string>, kind: ErrorKind)

  /** The exceptions that escape validation unconverted. */
  datatype Exception = AttributeError | TypeError

  /** Why validation failed: a ValidationError with its lines, or an exception passed through. */
  datatype Rejection = Invalid(errors: seq<LineError>) | Raised(exception: Exception)

  /** The outcome of validating one field. */
  datatype FieldOutcome<T> = Valid(value: T) | Errors(errors: seq<LineError>) | Escaped(exception: Exception)

  function ErrorsOf<T>(f: FieldOutcome<T>): seq<LineError> {
    if f.Errors? then f.errors else []
  }

  datatype WebhookPayload = WebhookPayload(fileId: string)
  datatype ParsedSudokuResult = ParsedSudokuResult(difficultyLevel: SudokuDifficulty, timeToSolve: int)
  datatype ImageMetaData = ImageMetaData(time: DateTime)
  datatype ScreenshotMetadata = ScreenshotMetadata(metadata: ImageMetaData)

  const NotAnObject := Invalid([LineError([], ModelType)])

  // ------------------------------------------------------------ WebhookPayload

  /**
   * `WebhookPayload.model_validate(data)`: an object whose "file_id" is a
   * string; no other key matters.
   */
  function ValidateWebhookPayload(data: Json): (r: Result<WebhookPayload, Rejection>)
    ensures r.Success? <==> data.JObject? && "file_id" in data.fields && data.fields["file_id"].JString?
    ensures r.Success? ==> r.value.fileId == data.fields["file_id"].s
    ensures r.Failure? ==> r.error.Invalid? && |r.error.errors| == 1
  {
    if !data.JObject? then Failure(NotAnObject)
    else if "file_id" !in data.fields then Failure(Invalid([LineError(["file_id"], Missing)]))
    else match data.fields["file_id"]
      case JString(s) => Success(WebhookPayload(s))
      case _ => Failure(Invalid([LineError(["file_id"], StringType)]))
  }

  /** Keys other than "file_id" change nothing. */
  lemma WebhookIgnoresExtraKeys(fields: map<string, Json>, key: string, v: Json)
    requires key != "file_id"
    ensures ValidateWebhookPayload(JObject(fields[key := v])) == ValidateWebhookPayload(JObject(fields))
  {
    var g := fields[key := v];
    assert ("file_id" in g <==> "file_id" in fields);
    if "file_id" in fields {
      assert g["file_id"] == fields["file_id"];
    }
  }

  // ------------------------------------------------------------ ParsedSudokuResult

  /** The object holds `key` as a string. */
  predicate HasString(fields: map<string, Json>, key: string) {
    key in fields && fields[key].JString?
  }


  /** `difficulty_level`: `uncapitalize_string`, then the enum. */
  function DifficultyField(fields: map<string, Json>): (f: FieldOutcome<SudokuDifficulty>)
    ensures f.Valid? <==> "difficulty_level" in fields && fields["difficulty_level"].JString?
                          && Normalise(fields["difficulty_level"].s).Some?
    ensures f.Escaped? <==> "difficulty_level" in fields && !fields["difficulty_level"].JString?
    ensures f.Escaped? ==> f.exception == AttributeError
  {
    if "difficulty_level" !in fields then Errors([LineError(["difficulty_level"], Missing)])
    else match fields["difficulty_level"]
      case JString(s) =>
        (match Normalise(s)
         case Some(d) => Valid(d)
         case None => Errors([LineError(["difficulty_level"], EnumMismatch)]))
      case _ => Escaped(AttributeError)
  }

  /** `time_to_solve`: `get_solved_time_in_seconds`, whose int passes the int field. */
  function TimeField(fields: map<string, Json>): (f: FieldOutcome<int>)
    ensures f.Valid? <==> "time_to_solve" in fields && fields["time_to_solve"].JString?
                          && SolvedTimeInSeconds(fields["time_to_solve"].s).Success?
    ensures f.Escaped? <==> "time_to_solve" in fields && !fields["time_to_solve"].JString?
    ensures f.Escaped? ==> f.exception == AttributeError
  {
    if "time_to_solve" !in fields then Errors([LineError(["time_to_solve"], Missing)])
    else match fields["time_to_solve"]
      case JString(s) =>
        (match SolvedTimeInSeconds(s)
         case Success(n) => Valid(n)
         case Failure(e) => Errors([LineError(["time_to_solve"], TimeValue(e))]))
      case _ => Escaped(AttributeError)
  }

  /**
   * `ParsedSudokuResult.model_validate(data)`: both fields, in declaration
   * order. A result needs both to validate: it is accepted exactly when the
   * difficulty normalises and the time parses, and then holds those values.
   */
  function ValidateParsedSudokuResult(data: Json): (r: Result<ParsedSudokuResult, Rejection>)
    ensures r.Success? <==>
      && data.JObject?
      && HasString(data.fields, "difficulty_level") && Normalise(data.fields["difficulty_level"].s).Some?
      && HasString(data.fields, "time_to_solve") && SolvedTimeInSeconds(data.fields["time_to_solve"].s).Success?
    ensures r.Success? ==>
      r.value == ParsedSudokuResult(Normalise(data.fields["difficulty_level"].s).value,
                                    SolvedTimeInSeconds(data.fields["time_to_solve"].s).value)
    ensures !data.JObject? ==> r == Failure(NotAnObject)
  {
    if !data.JObject? then Failure(NotAnObject)
    else
      var d := DifficultyField(data.fields);
      if d.Escaped? then Failure(Raised(d.exception))
      else
        var t := TimeField(data.fields);
        if t.Escaped? then Failure(Raised(t.exception))
        else if d.Valid? && t.Valid? then Success(ParsedSudokuResult(d.value, t.value))
        else Failure(Invalid(ErrorsOf(d) + ErrorsOf(t)))
  }

  /** A difficulty that is not a string escapes as AttributeError, whatever the time is. */
  lemma NonStringDifficultyRaises(fields: map<string, Json>)
    requires "difficulty_level" in fields && !fields["difficulty_level"].JString?
    ensures ValidateParsedSudokuResult(JObject(fields)) == Failure(Raised(AttributeError))
  {
  }

  /** Two string fields that both fail are both reported, difficulty first. */
  lemma BothFieldsReported(fields: map<string, Json>)
    requires HasString(fields, "difficulty_level") && Normalise(fields["difficulty_level"].s).None?
    requires HasString(fields, "time_to_solve") && SolvedTimeInSeconds(fields["time_to_solve"].s).Failure?
    ensures var r := ValidateParsedSudokuResult(JObject(fields));
      && r.Failure? && r.error.Invalid? && |r.error.errors| == 2
      && r.error.errors[0] == LineError(["difficulty_level"], EnumMismatch)
      && r.error.errors[1] == LineError(["time_to_solve"], TimeValue(SolvedTimeInSeconds(fields["time_to_solve"].s).error))
  {
  }

  /** Keys the model does not declare change nothing. */
  lemma ParsedResultIgnoresExtraKeys(fields: map<string, Json>, key: string, v: Json)
    requires key != "difficulty_level" && key != "time_to_solve"
    ensures ValidateParsedSudokuResult(JObject(fields[key := v])) == ValidateParsedSudokuResult(JObject(fields))
  {
    var g := fields[key := v];
    assert ("difficulty_level" in g <==> "difficulty_level" in fields);
    assert ("time_to_solve" in g <==> "time_to_solve" in fields);
    assert DifficultyField(g) == DifficultyField(fields);
    assert TimeField(g) == TimeField(fields);
  }

  // ------------------------------------------------------------ metadata

  /** `ImageMetaData.model_validate(data)`: "time" through `parse_googles_funky_timestamp`. */
  function ValidateImageMetaData(data: Json): (r: Result<ImageMetaData, Rejection>)
    ensures r.Success? <==> data.JObject? && HasString(data.fields, "time")
                            && ParseTimestamp(data.fields["time"].s).Success?
    ensures r.Success? ==> r.value.time == ParseTimestamp(data.fields["time"].s).value
  {
    if !data.JObject? then Failure(NotAnObject)
    else if "time" !in data.fields then Failure(Invalid([LineError(["time"], Missing)]))
    else match data.fields["time"]
      case JString(s) =>
        (match ParseTimestamp(s)
         case Success(dt) => Success(ImageMetaData(dt))
         case Failure(e) => Failure(Invalid([LineError(["time"], TimestampValue(e))])))
      case _ => Failure(Raised(TypeError))
  }

  /** Each error line located one level deeper, under `key`. */
  function Nested(key: string, errors: seq<LineError>): (r: seq<LineError>)
    ensures |r| == |errors|
    ensures forall i :: 0 <= i < |r| ==> r[i] == LineError([key] + errors[i].loc, errors[i].kind)
  {
    if errors == [] then []
    else [LineError([key] + errors[0].loc, errors[0].kind)] + Nested(key, errors[1..])
  }

  /**
   * `ScreenshotMetadata.model_validate(data)`: the field `metadata` is read
   * from the key "imageMediaMetadata" (its alias) and validated as an
   * `ImageMetaData`.
   */
  function ValidateScreenshotMetadata(data: Json): (r: Result<ScreenshotMetadata, Rejection>)
    ensures r.Success? <==>
      && data.JObject? && "imageMediaMetadata" in data.fields
      && var inner := data.fields["imageMediaMetadata"];
         inner.JObject? && HasString(inner.fields, "time") && ParseTimestamp(inner.fields["time"].s).Success?
    ensures r.Success? ==>
      r.value.metadata.time == ParseTimestamp(data.fields["imageMediaMetadata"].fields["time"].s).value
    ensures data.JObject? && r.Failure? && r.error.Invalid? ==>
      forall i :: 0 <= i < |r.error.errors| ==>
        |r.error.errors[i].loc| > 0 && r.error.errors[i].loc[0] == "imageMediaMetadata"
  {
    if !data.JObject? then Failure(NotAnObject)
    else if "imageMediaMetadata" !in data.fields then Failure(Invalid([LineError(["imageMediaMetadata"], Missing)]))
    else match ValidateImageMetaData(data.fields["imageMediaMetadata"])
      case Success(m) => Success(ScreenshotMetadata(m))
      case Failure(Invalid(errors)) => Failure(Invalid(Nested("imageMediaMetadata", errors)))
      case Failure(Raised(e)) => Failure(Raised(e))
  }

  /** A rejected timestamp is reported at ("imageMediaMetadata", "time"). */
  lemma ScreenshotTimestampErrorLocation(fields: map<string, Json>, inner: map<string, Json>)
    requires "imageMediaMetadata" in fields && fields["imageMediaMetadata"] == JObject(inner)
    requires HasString(inner, "time") && ParseTimestamp(inner["time"].s).Failure?
    ensures ValidateScreenshotMetadata(JObject(fields)) ==
      Failure(Invalid([LineError(["imageMediaMetadata", "time"], TimestampValue(ParseTimestamp(inner["time"].s).error))]))
  {
    var e := TimestampValue(ParseTimestamp(inner["time"].s).error);
    assert ValidateImageMetaData(JObject(inner)) == Failure(Invalid([LineError(["time"], e)]));
    var nested := Nested("imageMediaMetadata", [LineError(["time"], e)]);
    assert nested[0] == LineError(["imageMediaMetadata"] + ["time"], e);
    assert ["imageMediaMetadata"] + ["time"] == ["imageMediaMetadata", "time"];
    assert nested == [LineError(["imageMediaMetadata", "time"], e)];
  }

  /** Keys other than the alias change nothing; in particular, "metadata" is not read. */
  lemma ScreenshotIgnoresExtraKeys(fields: map<string, Json>, key: string, v: Json)
    requires key != "imageMediaMetadata"
    ensures ValidateScreenshotMetadata(JObject(fields[key := v])) == ValidateScreenshotMetadata(JObject(fields))
  {
    var g := fields[key := v];
    assert ("imageMediaMetadata" in g <==> "imageMediaMetadata" in fields);
    if "imageMediaMetadata" in fields {
      assert g["imageMediaMetadata"] == fields["imageMediaMetadata"];
    }
  }

  // ------------------------------------------------------------ the stored row

  /** The row `insert_sudoku_result` adds (its id and created_at are the database's). */
  datatype PuzzleSolution = PuzzleSolution(solvedAt: DateTime, timeToSolve: int, difficulty: string)

  /**
   * The row built from a parsed result and the screenshot's metadata. The
   * difficulty column holds the member's value: lower-case, within the
   * column's 20 characters, and read back as the same member.
   */
  function ToRow(parsed: ParsedSudokuResult, meta: ScreenshotMetadata): (row: PuzzleSolution)
    ensures row.solvedAt == meta.metadata.time && row.timeToSolve == parsed.timeToSolve
    ensures |row.difficulty| <= 20 && PyText.Lower(row.difficulty) == row.difficulty
    ensures Normalise(row.difficulty) == Some(parsed.difficultyLevel)
  {
    ValueIsFixedPoint(parsed.difficultyLevel);
    PuzzleSolution(meta.metadata.time, parsed.timeToSolve, parsed.difficultyLevel.Value())
  }

  // ------------------------------------------------------------ examples

  /** The reply the prompt asks for: Hard, twelve minutes thirty-seven. */
  lemma DocumentedResult(fields: map<string, Json>)
    requires fields == map["difficulty_level" := JString("Hard"), "time_to_solve" := JString("12:37")]
    ensures ValidateParsedSudokuResult(JObject(fields)) == Success(ParsedSudokuResult(Hard, 757))
  {
    NormaliseHardExamples();
    SolveTime.DocumentedExample(fields["time_to_solve"].s);
  }

  /** An unknown difficulty and a malformed time give one error line each. */
  lemma BadResultReportsBoth(fields: map<string, Json>, level: string, time: string)
    requires level == "Expert" && time == "ab:12"
    requires fields == map["difficulty_level" := JString(level), "time_to_solve" := JString(time)]
    ensures ValidateParsedSudokuResult(JObject(fields)) ==
      Failure(Invalid([LineError(["difficulty_level"], EnumMismatch),
                       LineError(["time_to_solve"], TimeValue(InvalidInteger(time[..2])))]))
  {
    BadFieldValues(level, time);
    assert fields["difficulty_level"].s == level && fields["time_to_solve"].s == time;
    BothFieldsReported(fields);
    var r := ValidateParsedSudokuResult(JObject(fields));
    var e0 := LineError(["difficulty_level"], EnumMismatch);
    var e1 := LineError(["time_to_solve"], TimeValue(InvalidInteger(time[..2])));
    assert r.error.errors == [e0, e1];
  }

  lemma BadFieldValues(level: string, time: string)
    requires level == "Expert" && time == "ab:12"
    ensures Normalise(level) == None
    ensures SolvedTimeInSeconds(time) == Failure(InvalidInteger(time[..2]))
  {
    NormaliseRejects();
    assert time == time[..2] + ":12";
    NotANumberExample(time, time[..2]);
  }

  /** Drive's metadata for a screenshot: the time is read from under the alias. */
  lemma DocumentedScreenshot(fields: map<string, Json>, stamp: string)
    requires stamp == "2024:01:15 10:30:00"
    requires fields == map["imageMediaMetadata" := JObject(map["time" := JString(stamp)]),
                           "name" := JString("Screenshot.png")]
    ensures ValidateScreenshotMetadata(JObject(fields)) ==
      Success(ScreenshotMetadata(ImageMetaData(DateTime(2024, 1, 15, 10, 30, 0))))
  {
    TimestampExamples.DocumentedExample(stamp);
  }
}
