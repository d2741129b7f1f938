/** Reading decimal text back as a number of a fixed width, and as what the shell wrote. */
module DecimalText {
  import opened Options
  import opened ShellVariables

  const I32_MAX: int := 0x7FFF_FFFF
  const USIZE_MAX: nat := 0xFFFF_FFFF_FFFF_FFFF

  function DigitValue(c: char): Option<nat> {
    if '0' <= c <= '9' then Some(c as int - '0' as int) else None
  }

  /** The number a non-empty run of digits stands for. */
  function DigitsValue(s: string): Option<nat> {
    if s == "" then None
    else
      var last := DigitValue(s[|s| - 1]);
      if |s| == 1 then last
      else
        var front := DigitsValue(s[..|s| - 1]);
        if front.Some? && last.Some? then Some(10 * front.value + last.value) else None
  }

  /** A signed 32-bit number: one optional sign, then digits. */
  function ParseI32(s: string): Option<int> {
    var negative := s != "" && s[0] == '-';
    var digits := DigitsValue(if negative || (s != "" && s[0] == '+') then s[1..] else s);
    match digits
    case None => None
    case Some(n) => InI32(if negative then 0 - n else n)
  }

  function InI32(n: int): Option<int> {
    if -I32_MAX - 1 <= n <= I32_MAX then Some(n) else None
  }

  /** An unsigned machine word: an optional '+', then digits. */
  function ParseUsize(s: string): Option<nat> {
    var digits := DigitsValue(if s != "" && s[0] == '+' then s[1..] else s);
    if digits.Some? && digits.value > USIZE_MAX then None else digits
  }

  lemma {:induction false} DigitsReadBack(n: nat)
    ensures DigitsValue(DigitsOf(n)) == Some(n)
  {
    if n >= 10 {
      DigitsReadBack(n / 10);
      DigitsAreDigits(n / 10);
      var s := DigitsOf(n);
      assert s[..|s| - 1] == DigitsOf(n / 10);
      assert DigitValue(Digit(n % 10)) == Some(n % 10);
    }
  }

  /** A written number is read back unless it is too wide, or negative where no sign is allowed, and then
      it does not read at all. */
  lemma {:induction false} NumberReadsBack(n: int)
    ensures ParseI32(ToDecimal(n)) == if -I32_MAX - 1 <= n <= I32_MAX then Some(n) else None
    ensures ParseUsize(ToDecimal(n)) == if 0 <= n <= USIZE_MAX then Some(n) else None
  {
    var size := if n < 0 then -n else n;
    DigitsReadBack(size);
    DigitsAreDigits(size);
    if n < 0 {
      assert ToDecimal(n)[1..] == DigitsOf(size);
      SignDoesNotRead(ToDecimal(n));
    }
    hide DigitsOf, DigitsValue;
    assert n >= 0 ==> ToDecimal(n)[0] != '-' && ToDecimal(n)[0] != '+';
  }

  lemma {:induction false} SignDoesNotRead(s: string)
    requires s != "" && s[0] == '-'
    ensures DigitsValue(s) == None
  {
    if |s| > 1 {
      SignDoesNotRead(s[..|s| - 1]);
    }
  }

  /** The digits of a number, most significant first. */
  ghost predicate IsNumeral(s: string) {
    s != "" && forall i :: 0 <= i < |s| ==> s[i] in "0123456789"
  }

  lemma {:induction false} NumeralsRead(s: string)
    ensures DigitsValue(s).Some? <==> IsNumeral(s)
  {
    if s != "" {
      var front, last := s[..|s| - 1], s[|s| - 1];
      assert last in "0123456789" <==> DigitValue(last).Some? by { DigitsAre(last); }
      if |s| > 1 {
        NumeralsRead(front);
        assert s == front + [last];
      }
    }
  }

  lemma {:induction false} DigitsAre(c: char)
    ensures c in "0123456789" <==> DigitValue(c).Some?
  {
    var digits := "0123456789";
    if '0' <= c <= '9' {
      assert digits[c as int - '0' as int] == c;
    }
  }

  /** Which texts read as numbers: digits, after one sign or none; and, where none may be negative, after a
      plus sign or none. A plus sign changes nothing. */
  lemma {:induction false} TextsThatRead(s: string)
    ensures ParseUsize(s).Some? ==> IsNumeral(s) || (s[..1] == "+" && IsNumeral(s[1..]))
    ensures ParseI32(s).Some? ==> IsNumeral(s) || (s[..1] in {"+", "-"} && IsNumeral(s[1..]))
    ensures IsNumeral(s) ==> ParseI32("+" + s) == ParseI32(s) && ParseUsize("+" + s) == ParseUsize(s)
  {
    NumeralsRead(s);
    if s != "" {
      NumeralsRead(s[1..]);
      assert s[..1] == [s[0]];
    }
    assert ("+" + s)[1..] == s;
    hide DigitsValue;
  }
}
