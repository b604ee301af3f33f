/**
 * Reading the assistant's reply. The request prefills the reply with "{",
 * so the completion lacks its opening brace: it is put back, the text is
 * stripped and decoded as JSON, and the decoded object is handed to the
 * `ParsedSudokuResult` model.
 */
module ClaudeReply {
  import opened Wrappers
  import opened PyText
  import opened Difficulty
  import opened SolveTime
  import opened Models

  /**
   * `("{" + raw).strip()`: the JSON text that is decoded. It starts with the
   * brace and keeps everything of the completion but trailing whitespace.
   */
  function ReconstructReply(raw: string): (text: string)
    ensures 0 < |text| && text[0] == '{'
    ensures |text| <= |raw| + 1 && text == ("{" + raw)[..|text|]
    ensures forall k :: |text| - 1 <= k < |raw| ==> IsSpace(raw[k])
    ensures !IsSpace(text[|text| - 1])
  {
    var full := "{" + raw;
    assert StripLeft(full) == full;
    var r := StripRight(full);
    assert |r| > 0 by {
      if |r| == 0 { StripRightDropsSpace(full, 0); }
    }
    assert forall k :: |r| - 1 <= k < |raw| ==> IsSpace(raw[k]) by {
      forall k | |r| - 1 <= k < |raw| ensures IsSpace(raw[k]) {
        StripRightDropsSpace(full, k + 1);
        assert full[k + 1] == raw[k];
      }
    }
    r
  }

  /**
   * `model_validate_json` accepts only JSON text; given the object that
   * `json.loads` has already decoded, it reports a single json_type error
   * and looks at no field.
   */
  function ValidateJsonAsWritten(decoded: map<string, Json>): (r: Result<ParsedSudokuResult, Rejection>)
    ensures r.Failure? && r.error == Invalid([LineError([], JsonType)])
  {
    Failure(Invalid([LineError([], JsonType)]))
  }

  /**
   * The corrected last step, `model_validate` on the decoded object: a reply
   * is accepted exactly when both fields validate, and then carries them.
   */
  function ParseDecodedReply(decoded: map<string, Json>): (r: Result<ParsedSudokuResult, Rejection>)
    ensures r.Success? <==>
      && HasString(decoded, "difficulty_level") && Normalise(decoded["difficulty_level"].s).Some?
      && HasString(decoded, "time_to_solve") && SolvedTimeInSeconds(decoded["time_to_solve"].s).Success?
    ensures r.Success? ==>
      r.value == ParsedSudokuResult(Normalise(decoded["difficulty_level"].s).value,
                                    SolvedTimeInSeconds(decoded["time_to_solve"].s).value)
  {
    ValidateParsedSudokuResult(JObject(decoded))
  }

  /**
   * As written, even the reply the prompt asks for is refused, while the
   * corrected step reads it as Hard in 757 seconds.
   */
  lemma DocumentedReplyRefusedAsWritten(decoded: map<string, Json>)
    requires decoded == map["difficulty_level" := JString("Hard"), "time_to_solve" := JString("12:37")]
    ensures ValidateJsonAsWritten(decoded).Failure?
    ensures ParseDecodedReply(decoded) == Success(ParsedSudokuResult(Hard, 757))
  {
    DocumentedResult(decoded);
  }

  /** The documented completion becomes a JSON text opening with the brace and closing with the other. */
  lemma DocumentedCompletion(raw: string)
    requires raw == "\n    \"difficulty_level\": \"Hard\",\n    \"time_to_solve\": \"12:37\"\n}"
    ensures ReconstructReply(raw) == "{" + raw
  {
    assert !IsSpace(raw[|raw| - 1]);
    StripUnspaced("{" + raw);
  }

  /** A trailing no-break space (U+00A0) is whitespace to `str.strip` and is dropped too. */
  lemma NoBreakSpaceDropped(raw: string)
    requires raw == "}" + [0xA0 as char]
    ensures ReconstructReply(raw) == "{}"
  {
    var full := "{" + raw;
    assert full[..|full| - 1] == "{}";
    assert StripRight("{}") == "{}";
    assert StripRight(full) == "{}";
  }
}
