/**
 The patent-number check every public operation runs first
 (`PatentDownloader._validate_patent_number`).
 */
module Validation {
  import opened Strings

  /** The Python values a caller can pass as a patent number. */
  datatype PyValue = PyNone | PyBool(b: bool) | PyInt(i: int) | PyStr(s: string)

  /** Python truthiness: `not v`. */
  predicate Falsy(v: PyValue) {
    match v
    case PyNone => true
    case PyBool(b) => !b
    case PyInt(i) => i == 0
    case PyStr(s) => s == ""
  }

  /** Which of the two `InvalidPatentNumberError` messages is raised. */
  datatype Rejection = NotANonEmptyString | TooShort

  datatype Verdict = Accepted | Rejected(reason: Rejection)

  /** The property the check enforces: a string of at least three non-blank-edged characters. */
  ghost predicate IsValidPatentNumber(v: PyValue) {
    v.PyStr? && |Strip(v.s)| >= 3
  }

  /**
   The validator. It accepts exactly the strings whose stripped length is at
   least 3; everything else, including every non-string, raises.
   */
  function ValidatePatentNumber(v: PyValue): (r: Verdict)
    ensures r.Accepted? <==> IsValidPatentNumber(v)
    ensures r == Rejected(NotANonEmptyString) <==> !v.PyStr? || v.s == ""
    ensures r == Rejected(TooShort) <==> v.PyStr? && v.s != "" && |Strip(v.s)| < 3
  {
    if Falsy(v) || !v.PyStr? then Rejected(NotANonEmptyString)
    else if |Strip(v.s)| < 3 then Rejected(TooShort)
    else Accepted
  }

  /** Surrounding whitespace does not count towards the length, but it is not removed either. */
  lemma PaddedNumberAccepted()
    ensures ValidatePatentNumber(PyStr(" ABC ")) == Accepted
  {
    assert StrippedAt(" ABC ", 1, 4);
    StripUnique(" ABC ", 1, 4);
  }

  /** A number with no edge whitespace is accepted exactly when it has at least three characters. */
  lemma TrimmedNumberVerdict(s: string)
    requires s != [] && !IsWhitespace(s[0]) && !IsWhitespace(s[|s| - 1])
    ensures ValidatePatentNumber(PyStr(s)) == if |s| >= 3 then Accepted else Rejected(TooShort)
  {
    StripOfTrimmed(s);
  }

  /** The numbers the repository's validation tests accept. */
  lemma AcceptedTestNumbers()
    ensures ValidatePatentNumber(PyStr("WO2013078254A1")) == Accepted
    ensures ValidatePatentNumber(PyStr("US20130123448A1")) == Accepted
    ensures ValidatePatentNumber(PyStr("EP1234567A1")) == Accepted
  {
    TrimmedNumberVerdict("WO2013078254A1");
    TrimmedNumberVerdict("US20130123448A1");
    TrimmedNumberVerdict("EP1234567A1");
  }

  /** The values the repository's validation tests reject. */
  lemma RejectedTestValues()
    ensures ValidatePatentNumber(PyStr("")) == Rejected(NotANonEmptyString)
    ensures ValidatePatentNumber(PyStr("AB")) == Rejected(TooShort)
    ensures ValidatePatentNumber(PyNone) == Rejected(NotANonEmptyString)
    ensures ValidatePatentNumber(PyInt(123)) == Rejected(NotANonEmptyString)
  {
    TrimmedNumberVerdict("AB");
  }

  /** Padding does not lengthen a two-character number. */
  lemma PaddedShortNumberRejected()
    ensures ValidatePatentNumber(PyStr("  AB  ")) == Rejected(TooShort)
  {
    assert StrippedAt("  AB  ", 2, 4);
    StripUnique("  AB  ", 2, 4);
  }
}
