/** `secs2HHMMSS`: splitting a number of seconds into hours, minutes and
    seconds for the report (the code is the same in all three variants of
    the script). On integer seconds, as the old script passes them, Python
    2 `/` and `%` floor, which for the positive divisors 3600 and 60 agrees
    with Dafny's Euclidean operators. The float arguments of the later
    variants and the `%02d` string formatting are not part of this model.
 */
module Clock {

  datatype HMS = HMS(hrs: int, mins: int, secs: int)

  /** The seconds an `HMS` stands for. */
  function Seconds(c: HMS): int {
    c.hrs * 3600 + c.mins * 60 + c.secs
  }

  function SecsToHHMMSS(seconds: int): (c: HMS)
    ensures Seconds(c) == seconds
    ensures 0 <= c.mins < 60 && 0 <= c.secs < 60
    ensures seconds >= 0 ==> c.hrs >= 0
  {
    var hrs := seconds / 3600;
    var rest := seconds % 3600;
    HMS(hrs, rest / 60, rest % 60)
  }

  /** The split is the inverse of `Seconds` on normalised values. */
  lemma ClockRoundTrip(c: HMS)
    requires 0 <= c.mins < 60 && 0 <= c.secs < 60
    ensures SecsToHHMMSS(Seconds(c)) == c
  {
  }
}
