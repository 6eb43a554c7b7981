/**
  The id a client resumes a stream from: packages/domain/src/run-event-stream.ts.
 */
module LastEventId {
  import opened Wrappers

  const MAX_RUN_EVENT_SEQ := 2147483647

  /** A JavaScript value: a finite number, a number that is not finite, a string, or anything else. */
  datatype Value = Num(number: real) | NotFinite | Text(text: string) | OtherValue

  predicate IsDigit(c: char) {
    '0' <= c <= '9'
  }

  predicate AllDigits(s: string) {
    forall i :: 0 <= i < |s| ==> IsDigit(s[i])
  }

  /** The regular expression: zero, or digits that do not start with zero. */
  predicate IsDecimal(s: string) {
    s != [] && AllDigits(s) && (s[0] == '0' ==> |s| == 1)
  }

  function DigitOf(c: char): (digit: nat)
    requires IsDigit(c)
    ensures digit < 10
  {
    c as int - '0' as int
  }

  function BigIntOf(s: string): nat
    requires AllDigits(s)
  {
    if s == [] then 0 else 10 * BigIntOf(s[..|s| - 1]) + DigitOf(s[|s| - 1])
  }

  /** parseLastEventId; the one error is InvalidLastEventIdError. */
  function ParseLastEventId(value: Value): Result<nat, ()> {
    match value
    case Num(number) =>
      if number.Floor as real == number && 0.0 <= number <= MAX_RUN_EVENT_SEQ as real then Ok(number.Floor) else Err(())
    case Text(text) =>
      if IsDecimal(text) && BigIntOf(text) <= MAX_RUN_EVENT_SEQ then Ok(BigIntOf(text)) else Err(())
    case _ => Err(())
  }

  /** String(n) for a non-negative integer. */
  function Print(n: nat): (s: string)
    ensures IsDecimal(s) && (n > 0 ==> s[0] != '0')
  {
    var digit := ('0' as int + n % 10) as char;
    if n < 10 then [digit] else Print(n / 10) + [digit]
  }

  lemma {:induction false} ReadingBack(n: nat)
    ensures BigIntOf(Print(n)) == n
  {
    if n >= 10 {
      var front := Print(n / 10);
      ReadingBack(n / 10);
      assert Print(n)[..|Print(n)| - 1] == front;
    }
  }

  lemma {:induction false} PrintingBack(s: string)
    requires IsDecimal(s)
    ensures Print(BigIntOf(s)) == s
    ensures s[0] != '0' ==> BigIntOf(s) > 0
  {
    var n := |s| - 1;
    if n == 0 {
      assert s == [s[0]] && BigIntOf(s[..0]) == 0;
      assert Print(DigitOf(s[0])) == [s[0]];
    } else {
      var front := s[..n];
      assert front[0] == s[0];
      PrintingBack(front);
      var digit := DigitOf(s[n]);
      assert BigIntOf(s) == 10 * BigIntOf(front) + digit;
      assert BigIntOf(s) / 10 == BigIntOf(front) && BigIntOf(s) % 10 == digit;
      assert s == front + [s[n]];
    }
  }

  /** The strings accepted are the canonical decimals of 0..MAX_RUN_EVENT_SEQ, each read as the number it prints. */
  lemma TextIsCanonical(s: string, n: nat)
    ensures ParseLastEventId(Text(s)) == Ok(n) <==> n <= MAX_RUN_EVENT_SEQ && s == Print(n)
  {
    ReadingBack(n);
    if IsDecimal(s) { PrintingBack(s); }
  }

  /** The numbers accepted are the integers of that range, themselves. */
  lemma NumberIsItself(number: real, n: nat)
    ensures ParseLastEventId(Num(number)) == Ok(n) <==> n <= MAX_RUN_EVENT_SEQ && number == n as real
  {}

  /** A number and its text resume at the same place. */
  lemma TextAndNumberAgree(n: nat)
    ensures ParseLastEventId(Text(Print(n))) == ParseLastEventId(Num(n as real))
  {
    TextIsCanonical(Print(n), n);
    NumberIsItself(n as real, n);
    ReadingBack(n);
  }
}
