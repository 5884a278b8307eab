/**
  The error value returned by failed lookups: a record holding one
  descriptive message. Equality is structural, so two errors are equal
  exactly when their messages are.
 */
module Errors {

  datatype CliplyError = CliplyError(details: string)

  /** The result of a lookup: the found value, or an error. */
  datatype Result<T> = Ok(value: T) | Err(error: CliplyError)

  /** Creates an error whose message is `details`, stored verbatim. */
  function New(details: string): (e: CliplyError)
    ensures e.details == details
  {
    CliplyError(details)
  }

  /** The string form of an error; it gives back what `New` was given. */
  function ToString(e: CliplyError): (s: string)
    ensures New(s) == e
  {
    e.details
  }

  /** The description required of an error value: again the message itself. */
  function Description(e: CliplyError): (s: string)
    ensures New(s) == e
    ensures s == ToString(e)
  {
    e.details
  }

  /**
    Display: writing `e` to a formatter whose output so far is `out`
    appends the message and nothing else.
   */
  function Fmt(e: CliplyError, out: string): (r: string)
    ensures |r| == |out| + |e.details|
    ensures r[..|out|] == out
    ensures New(r[|out|..]) == e
  {
    out + e.details
  }

  /** Errors are equal exactly when their messages are equal. */
  lemma EqualIffSameDetails(a: CliplyError, b: CliplyError)
    ensures a == b <==> a.details == b.details
  {
  }

  /** Two errors built from different messages are different. */
  lemma NewInjective(d1: string, d2: string)
    ensures New(d1) == New(d2) <==> d1 == d2
  {
  }
}
