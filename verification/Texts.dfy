/** Reading back what the serialisers print: keywords, enumerator names, numbers and placeholders. */
module Texts {
  import opened Wrappers

  /** The text after a fixed prefix. */
  function Eat(s: string, prefix: string): Option<string> {
    if prefix <= s then Some(s[|prefix|..]) else None
  }

  lemma EatOwn(prefix: string, rest: string)
    ensures Eat(prefix + rest, prefix) == Some(rest)
  {
    assert prefix <= prefix + rest;
  }

  lemma EatOther(s: string, prefix: string, i: nat)
    requires i < |prefix|
    requires i < |s| ==> s[i] != prefix[i]
    ensures Eat(s, prefix).None?
  {}

  // ---------- Names ----------

  predicate NameChar(c: char) {
    'a' <= c <= 'z' || 'A' <= c <= 'Z' || c == '_'
  }

  /** Enumerators print as their own names, which are words of letters and underscores. */
  predicate IsName(s: string) {
    s != "" && forall c | c in s :: NameChar(c)
  }

  predicate StartsName(s: string) {
    s != "" && NameChar(s[0])
  }

  /** The longest name at the start. */
  function ReadName(s: string): (read: (string, string))
    ensures |read.1| <= |s|
  {
    if !StartsName(s) then ("", s)
    else
      var (name, rest) := ReadName(s[1..]);
      ([s[0]] + name, rest)
  }

  lemma {:induction false} ReadOwnName(name: string, rest: string)
    requires forall c | c in name :: NameChar(c)
    requires !StartsName(rest)
    ensures ReadName(name + rest) == (name, rest)
  {
    if name == "" {
      assert name + rest == rest;
    } else {
      assert (name + rest)[1..] == name[1..] + rest;
      ReadOwnName(name[1..], rest);
      assert (name + rest)[0] == name[0] && NameChar(name[0]);
      assert name == [name[0]] + name[1..];
    }
  }

  lemma {:induction false} ReadNameSplits(s: string)
    ensures s == ReadName(s).0 + ReadName(s).1
  {
    if StartsName(s) {
      ReadNameSplits(s[1..]);
    }
  }

  // ---------- Numbers ----------

  predicate DigitChar(c: char) {
    '0' <= c <= '9'
  }

  function Digit(n: nat): (c: char)
    requires n < 10
    ensures DigitChar(c)
  {
    '0' + n as char
  }

  function DigitValue(c: char): nat
    requires DigitChar(c)
  {
    c as int - '0' as int
  }

  function Decimal(n: nat): string {
    if n < 10 then [Digit(n)] else Decimal(n / 10) + [Digit(n % 10)]
  }

  predicate StartsDigit(s: string) {
    s != "" && DigitChar(s[0])
  }

  /** Reads on the number whose digits so far make `value`. */
  function ReadDigits(s: string, value: nat): (read: (nat, string))
    ensures |read.1| <= |s|
  {
    if !StartsDigit(s) then (value, s) else ReadDigits(s[1..], 10 * value + DigitValue(s[0]))
  }

  lemma {:induction false} DecimalDigits(n: nat)
    ensures Decimal(n) != "" && forall c | c in Decimal(n) :: DigitChar(c)
    decreases n
  {
    if n >= 10 {
      DecimalDigits(n / 10);
    }
  }

  lemma {:induction false} ReadOwnDigits(n: nat, rest: string)
    requires !StartsDigit(rest)
    ensures StartsDigit(Decimal(n) + rest) && ReadDigits(Decimal(n) + rest, 0) == (n, rest)
  {
    DecimalDigits(n);
    ReadThrough(n, rest);
  }

  /** Reading the digits of a number leaves the reader with that number. */
  lemma {:induction false} ReadThrough(n: nat, rest: string)
    ensures ReadDigits(Decimal(n) + rest, 0) == ReadDigits(rest, n)
    decreases n
  {
    if n < 10 {
      assert (Decimal(n) + rest)[1..] == rest;
      assert DigitValue(Digit(n)) == n;
    } else {
      var last := [Digit(n % 10)] + rest;
      assert Decimal(n) + rest == Decimal(n / 10) + last;
      ReadThrough(n / 10, last);
      assert last[1..] == rest;
      assert DigitValue(Digit(n % 10)) == n % 10;
    }
  }

  function PutNumber(n: int, rest: string): string {
    if n < 0 then "-" + (Decimal(-n) + rest) else Decimal(n) + rest
  }

  function ReadNumber(s: string): Option<(int, string)> {
    if StartsDigit(s) then
      var read := ReadDigits(s, 0);
      Some((read.0 as int, read.1))
    else if s != "" && s[0] == '-' && StartsDigit(s[1..]) then
      var read := ReadDigits(s[1..], 0);
      Some((0 - (read.0 as int), read.1))
    else None
  }

  lemma ReadOwnNumber(n: int, rest: string)
    requires !StartsDigit(rest)
    ensures ReadNumber(PutNumber(n, rest)) == Some((n, rest))
  {
    if n < 0 {
      ReadOwnDigits(-n, rest);
      assert PutNumber(n, rest)[1..] == Decimal(-n) + rest;
    } else {
      ReadOwnDigits(n, rest);
    }
  }

  // ---------- Placeholders ----------

  function PutMark(k: nat, rest: string): string {
    "$" + (Decimal(k) + rest)
  }

  function ReadMark(s: string): Option<(nat, string)> {
    if s == "" || s[0] != '$' || !StartsDigit(s[1..]) then None else Some(ReadDigits(s[1..], 0))
  }

  lemma ReadOwnMark(k: nat, rest: string)
    requires !StartsDigit(rest)
    ensures ReadMark(PutMark(k, rest)) == Some((k, rest))
  {
    ReadOwnDigits(k, rest);
    assert PutMark(k, rest)[1..] == Decimal(k) + rest;
  }

  /** Placeholders k, k+1, ... separated by commas. */
  function PutMarks(k: nat, n: nat, rest: string): string
    decreases n
  {
    if n == 0 then rest
    else PutMark(k, if n == 1 then rest else ", " + PutMarks(k + 1, n - 1, rest))
  }

  function ReadMarks(s: string): (read: (seq<nat>, string))
    ensures |read.1| <= |s|
    decreases |s|
  {
    match ReadMark(s)
    case None => ([], s)
    case Some((k, rest)) =>
      var more := Eat(rest, ", ");
      if more.None? then ([k], rest)
      else
        var (marks, last) := ReadMarks(more.value);
        ([k] + marks, last)
  }

  function From(k: nat, n: nat): seq<nat> {
    seq(n, i requires 0 <= i => k + i)
  }

  lemma {:induction false} ReadOwnMarks(k: nat, n: nat, rest: string)
    requires rest != "" && rest[0] == ')'
    ensures ReadMarks(PutMarks(k, n, rest)) == (From(k, n), rest)
    decreases n
  {
    if n == 0 {
      assert From(k, n) == [];
    } else if n == 1 {
      ReadOwnMark(k, rest);
      assert Eat(rest, ", ").None?;
      assert From(k, n) == [k];
    } else if n > 1 {
      var tail := PutMarks(k + 1, n - 1, rest);
      ReadOwnMark(k, ", " + tail);
      EatOwn(", ", tail);
      ReadOwnMarks(k + 1, n - 1, rest);
      assert From(k, n) == [k] + From(k + 1, n - 1);
    }
  }
}
