/** Timestamps in Giphy responses use the layout "2006-01-02 15:04:05"
    and send "0000-00-00 00:00:00" (or nothing) when there is no date.
    Decoding accepts such a blank timestamp without writing anything,
    instead of handing it to the date parser. */
module GiphyTime {
  import opened Wrappers

  const GiphyTimeFormat: string := "2006-01-02 15:04:05"
  const BlankGiphyTimeStr: string := "0000-00-00 00:00:00"

  /** `blankTimeStr`: the empty string or the all-zero sentinel. */
  predicate BlankTimeStr(s: string)
  {
    s == "" || s == BlankGiphyTimeStr
  }

  predicate IsDigit(c: char)
  {
    '0' <= c <= '9'
  }

  function DigitValue(c: char): (v: nat)
    requires IsDigit(c)
    ensures v <= 9
  {
    (c as int) - ('0' as int)
  }

  /** The month field of the layout (characters 5 and 6) holds 01 to 12,
      which the date parser demands of any string it accepts. Only the year
      and month fields are required to be present: the parser also accepts
      longer strings, such as ones with a fractional second. */
  predicate MonthInRange(s: string)
  {
    && |s| >= 7
    && IsDigit(s[5]) && IsDigit(s[6])
    && 1 <= 10 * DigitValue(s[5]) + DigitValue(s[6]) <= 12
  }

  /** A stand-in for `time.Parse` with the Giphy layout: any function from
      text to "accepted" that, like the real parser, accepts only strings
      whose month field is in range. */
  ghost predicate SoundParser(accepts: string -> bool)
  {
    forall s :: accepts(s) ==> MonthInRange(s)
  }

  datatype TimeError = ParseError

  /** `GiphyTime.UnmarshalJSON` after unquoting: a blank timestamp succeeds
      without writing to the target (`None`), which therefore keeps its
      value — the zero time when the decoder has just allocated it; any
      other text is handed to the parser, and is the decoded time when the
      parser accepts it. */
  function UnmarshalTime(unquoted: string, accepts: string -> bool): (r: Result<Option<string>, TimeError>)
  {
    if BlankTimeStr(unquoted) then Success(None)
    else if accepts(unquoted) then Success(Some(unquoted))
    else Failure(ParseError)
  }

  /** The same decoding with the blank short-circuit removed. */
  function UnmarshalTimeWithoutBlankCheck(unquoted: string, accepts: string -> bool): (r: Result<Option<string>, TimeError>)
  {
    if accepts(unquoted) then Success(Some(unquoted)) else Failure(ParseError)
  }

  /** Neither blank form could get past the parser: the empty string is too
      short and the sentinel's month is 00. */
  lemma BlankIsNeverParseable(s: string)
    requires BlankTimeStr(s)
    ensures !MonthInRange(s)
  {
    if s == BlankGiphyTimeStr {
      assert s[5] == '0' && s[6] == '0';
    }
  }

  /** What the short-circuit buys: a blank timestamp decodes with no error
      and writes nothing, where the parser alone would reject it; every
      other timestamp decodes exactly as the parser alone decodes it. So the
      short-circuit, not the parser, supplies the result exactly for blank
      strings. */
  lemma BlankShortCircuitOnlyRescuesBlanks(unquoted: string, accepts: string -> bool)
    requires SoundParser(accepts)
    ensures BlankTimeStr(unquoted) ==> UnmarshalTime(unquoted, accepts) == Success(None)
    ensures BlankTimeStr(unquoted) ==> UnmarshalTimeWithoutBlankCheck(unquoted, accepts) == Failure(ParseError)
    ensures !BlankTimeStr(unquoted) ==>
              UnmarshalTime(unquoted, accepts) == UnmarshalTimeWithoutBlankCheck(unquoted, accepts)
    ensures (UnmarshalTime(unquoted, accepts).Success? && UnmarshalTime(unquoted, accepts).value.None?)
              <==> BlankTimeStr(unquoted)
  {
    if BlankTimeStr(unquoted) {
      BlankIsNeverParseable(unquoted);
    }
  }
}
