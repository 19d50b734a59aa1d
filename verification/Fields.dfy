/** Text made of fields between separators, and decimal numbers in fields. */
module Fields {
  const ESC: char := '\U{1b}'
  const BEL: char := '\U{07}'

  function Split(s: string, separator: char): (parts: seq<string>)
    ensures parts != []
  {
    if s == "" then [""]
    else
      var rest := Split(s[1..], separator);
      if s[0] == separator then [""] + rest else [[s[0]] + rest[0]] + rest[1..]
  }

  function Join(parts: seq<string>, separator: char): string {
    if parts == [] then ""
    else if |parts| == 1 then parts[0]
    else parts[0] + [separator] + Join(parts[1..], separator)
  }

  lemma {:induction false} SplitFirst(part: string, rest: string, separator: char)
    requires separator !in part
    ensures Split(part, separator) == [part]
    ensures Split(part + [separator] + rest, separator) == [part] + Split(rest, separator)
    decreases |part|
  {
    var s := part + [separator] + rest;
    if part == "" {
      assert s[1..] == rest;
    } else {
      SplitFirst(part[1..], rest, separator);
      assert s[1..] == part[1..] + [separator] + rest;
      assert [part[0]] + part[1..] == part;
    }
  }

  /** Fields without the separator are found again. */
  lemma {:induction false} SplitJoin(parts: seq<string>, separator: char)
    requires parts != [] && forall i | 0 <= i < |parts| :: separator !in parts[i]
    ensures Split(Join(parts, separator), separator) == parts
  {
    if |parts| == 1 {
      SplitFirst(parts[0], "", separator);
    } else {
      SplitFirst(parts[0], Join(parts[1..], separator), separator);
      SplitJoin(parts[1..], separator);
    }
  }

  predicate IsDigit(c: char) {
    '0' <= c <= '9'
  }

  predicate Digits(s: string) {
    forall i | 0 <= i < |s| :: IsDigit(s[i])
  }

  predicate IsNumber(s: string) {
    s != "" && Digits(s)
  }

  function ToNat(digits: string): nat
    requires Digits(digits)
  {
    if digits == "" then 0
    else
      var last := digits[|digits| - 1];
      assert IsDigit(last);
      10 * ToNat(digits[..|digits| - 1]) + (last as int - '0' as int)
  }

  function ToString(n: nat): (digits: string)
    ensures IsNumber(digits)
  {
    (if n < 10 then "" else ToString(n / 10)) + ['0' + (n % 10) as char]
  }

  lemma OneDigitMore(front: string, d: nat)
    requires Digits(front) && d < 10
    ensures var digits := front + ['0' + d as char]; Digits(digits) && ToNat(digits) == 10 * ToNat(front) + d
  {
    var digits := front + ['0' + d as char];
    assert digits[..|digits| - 1] == front;
    assert forall i | 0 <= i < |front| :: digits[i] == front[i];
  }

  lemma {:induction false} PrintedNumber(n: nat)
    ensures ToNat(ToString(n)) == n
  {
    hide ToNat;
    if n < 10 {
      NoDigits();
      OneDigitMore("", n);
    } else {
      PrintedNumber(n / 10);
      OneDigitMore(ToString(n / 10), n % 10);
    }
  }

  lemma NoDigits()
    ensures ToNat("") == 0
  {}
}
