/** The JavaScript string and number built-ins the editor relies on:
    `parseInt(s, 10)`, `String.prototype.split` with a one-character
    separator, `Array.prototype.join` and upper-casing of one character. */
module JsText {

  datatype Option<T> = None | Some(value: T)

  predicate IsDigit(c: char) {
    '0' <= c <= '9'
  }

  function DigitValue(c: char): nat
    requires IsDigit(c)
  {
    (c as int) - ('0' as int)
  }

  function DigitChar(d: nat): (c: char)
    requires d < 10
    ensures IsDigit(c) && DigitValue(c) == d
  {
    (('0' as int) + d) as char
  }

  /** The white space and line terminators `parseInt` skips before the number. */
  predicate IsJsSpace(c: char) {
    c == ' ' || c == '\t' || c == '\n' || c == '\r' || c == '\U{B}' || c == '\U{C}'
    || c == '\U{A0}' || c == '\U{FEFF}' || c == '\U{2028}' || c == '\U{2029}'
  }

  function TrimStart(s: string): (r: string)
    ensures |r| <= |s| && r == s[|s| - |r|..]
    ensures r == [] || !IsJsSpace(r[0])
  {
    if s != [] && IsJsSpace(s[0]) then TrimStart(s[1..]) else s
  }

  /** The number of decimal digits at the start of `s`. */
  function DigitRun(s: string): (k: nat)
    ensures k <= |s|
    ensures forall i :: 0 <= i < k ==> IsDigit(s[i])
    ensures k == |s| || !IsDigit(s[k])
  {
    if s != [] && IsDigit(s[0]) then 1 + DigitRun(s[1..]) else 0
  }

  predicate AllDigits(s: string) {
    forall i :: 0 <= i < |s| ==> IsDigit(s[i])
  }

  /** The value of a string of decimal digits, most significant first. */
  function DigitsValue(s: string): nat
    requires AllDigits(s)
  {
    if s == [] then 0 else DigitsValue(s[..|s| - 1]) * 10 + DigitValue(s[|s| - 1])
  }

  /** `parseInt(s, 10)`: None stands for NaN. Leading white space is
      skipped, one sign is accepted, and the longest run of digits that
      follows is read; anything after it is ignored. */
  function ParseInt(s: string): Option<int> {
    ReadSigned(TrimStart(s))
  }

  /** The number at the very start of `t`: an optional sign, then digits. */
  function ReadSigned(t: string): Option<int> {
    if t != [] && t[0] == '-' then Negate(ReadDigits(t[1..]))
    else if t != [] && t[0] == '+' then ReadDigits(t[1..])
    else ReadDigits(t)
  }

  function ReadDigits(body: string): Option<int> {
    var k := DigitRun(body);
    if k == 0 then None else Some(DigitsValue(body[..k]))
  }

  function Negate(n: Option<int>): Option<int> {
    match n
    case None => None
    case Some(v) => Some(-v)
  }

  /** `Math.max(0, parseInt(s, 10) || 0)`: the minutes a time field stands
      for, where NaN and negative numbers count as 0. */
  function Minutes(s: string): nat {
    match ParseInt(s)
    case None => 0
    case Some(n) => if n < 0 then 0 else n
  }

  /** The decimal text of a natural number, as `String(n)` writes it. */
  function NatDecimal(n: nat): (s: string)
    ensures |s| > 0 && AllDigits(s)
  {
    if n < 10 then [DigitChar(n)] else NatDecimal(n / 10) + [DigitChar(n % 10)]
  }

  function Decimal(n: int): string {
    if n < 0 then "-" + NatDecimal(-n) else NatDecimal(n)
  }

  lemma {:induction false} NatDecimalValue(n: nat)
    ensures DigitsValue(NatDecimal(n)) == n
  {
    var s := NatDecimal(n);
    if n >= 10 {
      NatDecimalValue(n / 10);
      assert s[..|s| - 1] == NatDecimal(n / 10);
    }
  }

  lemma {:induction false} DigitRunOfDigits(d: string, rest: string)
    requires AllDigits(d)
    requires rest == [] || !IsDigit(rest[0])
    ensures DigitRun(d + rest) == |d|
  {
    if d != [] {
      assert (d + rest)[1..] == d[1..] + rest;
      DigitRunOfDigits(d[1..], rest);
    } else {
      assert d + rest == rest;
    }
  }

  /** After the sign, a run of digits followed by a non-digit or the end
      is read as the value of those digits. */
  lemma ReadDigitsThenRest(d: string, rest: string)
    requires |d| > 0 && AllDigits(d)
    requires rest == [] || !IsDigit(rest[0])
    ensures ReadDigits(d + rest) == Some(DigitsValue(d) as int)
  {
    DigitRunOfDigits(d, rest);
    assert (d + rest)[..|d|] == d;
  }

  lemma ReadDigitsOfDecimal(m: nat, rest: string)
    requires rest == [] || !IsDigit(rest[0])
    ensures ReadDigits(NatDecimal(m) + rest) == Some(m)
  {
    NatDecimalValue(m);
    ReadDigitsThenRest(NatDecimal(m), rest);
  }

  /** Text that does not start with white space is read from its first character. */
  lemma ParseIntNoSpace(s: string)
    requires s != [] && !IsJsSpace(s[0])
    ensures ParseInt(s) == ReadSigned(s)
  {
  }

  /** `parseInt` on text that starts with a digit reads the digits. */
  lemma ParseIntUnsigned(body: string)
    requires body != [] && IsDigit(body[0])
    ensures ParseInt(body) == ReadDigits(body)
  {
    ParseIntNoSpace(body);
  }

  /** `parseInt` on a minus sign and then anything negates what follows it. */
  lemma ParseIntNegative(body: string)
    ensures ParseInt(['-'] + body) == Negate(ReadDigits(body))
  {
    var s := ['-'] + body;
    assert s[0] == '-' && s[1..] == body;
    ParseIntNoSpace(s);
  }

  lemma ParseIntOfNatDecimal(m: nat, rest: string)
    requires rest == [] || !IsDigit(rest[0])
    ensures ParseInt(NatDecimal(m) + rest) == Some(m)
  {
    ReadDigitsOfDecimal(m, rest);
    var body := NatDecimal(m) + rest;
    assert body[0] == NatDecimal(m)[0];
    ParseIntUnsigned(body);
  }

  lemma ParseIntOfMinus(body: string, m: nat)
    requires ReadDigits(body) == Some(m)
    ensures ParseInt(['-'] + body) == Some(-(m as int))
  {
    ParseIntNegative(body);
  }

  lemma PrependAssoc(c: char, a: string, b: string)
    ensures ([c] + a) + b == [c] + (a + b)
  {
  }

  lemma ParseIntOfNegativeDecimal(n: int, rest: string)
    requires n < 0
    requires rest == [] || !IsDigit(rest[0])
    ensures ParseInt(Decimal(n) + rest) == Some(n)
  {
    var d := NatDecimal(-n);
    ReadDigitsOfDecimal(-n, rest);
    ParseIntOfMinus(d + rest, -n);
    assert Decimal(n) == ['-'] + d;
    PrependAssoc('-', d, rest);
  }

  /** `parseInt` reads back the decimal text of any integer, whatever
      non-digit text follows it. */
  lemma ParseIntOfDecimal(n: int, rest: string)
    requires rest == [] || !IsDigit(rest[0])
    ensures ParseInt(Decimal(n) + rest) == Some(n)
  {
    if n < 0 {
      ParseIntOfNegativeDecimal(n, rest);
    } else {
      ParseIntOfNatDecimal(n, rest);
    }
  }

  lemma ParseIntOfDecimalAlone(n: int)
    ensures ParseInt(Decimal(n)) == Some(n)
  {
    ParseIntOfDecimal(n, []);
    assert Decimal(n) + [] == Decimal(n);
  }

  /** A time field that holds a number, possibly followed by text that does
      not start with a digit (`"15 min"`), counts that many minutes, and a
      negative number counts 0. */
  lemma MinutesOfDecimal(n: int, rest: string)
    requires rest == [] || !IsDigit(rest[0])
    ensures Minutes(Decimal(n) + rest) == if n < 0 then 0 else n
  {
    ParseIntOfDecimal(n, rest);
  }

  /** `c.toUpperCase()` on the 26 ASCII letters; every other character is
      left as it is. */
  function ToUpper(c: char): char {
    if 'a' <= c <= 'z' then (c as int - 32) as char else c
  }

  /** `s.split(sep)` with a one-character separator: never empty, and a
      separator at either end or two in a row give empty pieces. */
  function Split(s: string, sep: char): (pieces: seq<string>)
    ensures |pieces| >= 1
    ensures forall i :: 0 <= i < |pieces| ==> sep !in pieces[i]
  {
    if s == [] then [[]]
    else if s[0] == sep then [[]] + Split(s[1..], sep)
    else
      var rest := Split(s[1..], sep);
      [[s[0]] + rest[0]] + rest[1..]
  }

  /** `pieces.join(sep)`. */
  function Join(pieces: seq<string>, sep: string): string {
    if pieces == [] then []
    else if |pieces| == 1 then pieces[0]
    else pieces[0] + sep + Join(pieces[1..], sep)
  }

  /** Joining the pieces of a split with the same separator gives back the
      original text. */
  lemma {:induction false} JoinSplit(s: string, sep: char)
    ensures Join(Split(s, sep), [sep]) == s
  {
    if s == [] {
    } else if s[0] == sep {
      JoinSplit(s[1..], sep);
      assert s == [sep] + s[1..];
    } else {
      JoinSplit(s[1..], sep);
      JoinConsHead(s[0], Split(s[1..], sep), [sep]);
      assert s == [s[0]] + s[1..];
    }
  }

  /** Putting a character in front of the first piece puts it in front of
      the joined text. */
  lemma JoinConsHead(c: char, pieces: seq<string>, sep: string)
    requires |pieces| >= 1
    ensures Join([[c] + pieces[0]] + pieces[1..], sep) == [c] + Join(pieces, sep)
  {
    var longer := [[c] + pieces[0]] + pieces[1..];
    if |pieces| > 1 {
      assert longer[1..] == pieces[1..];
      var tail := sep + Join(pieces[1..], sep);
      assert Join(longer, sep) == ([c] + pieces[0]) + tail;
      assert Join(pieces, sep) == pieces[0] + tail;
      PrependAssoc(c, pieces[0], tail);
    }
  }

  lemma {:induction false} SplitNoSeparator(p: string, sep: char)
    requires sep !in p
    ensures Split(p, sep) == [p]
  {
    if p != [] {
      SplitNoSeparator(p[1..], sep);
      assert p == [p[0]] + p[1..];
    }
  }

  lemma {:induction false} SplitPieceThenSeparator(p: string, sep: char, rest: string)
    requires sep !in p
    ensures Split(p + [sep] + rest, sep) == [p] + Split(rest, sep)
  {
    if p == [] {
      assert p + [sep] + rest == [sep] + rest;
      assert ([sep] + rest)[1..] == rest;
    } else {
      var s := p + [sep] + rest;
      assert s[0] == p[0];
      assert s[1..] == p[1..] + [sep] + rest;
      SplitPieceThenSeparator(p[1..], sep, rest);
      assert [p[0]] + p[1..] == p;
    }
  }

  /** Splitting a join of separator-free pieces gives back the pieces. */
  lemma {:induction false} SplitJoin(pieces: seq<string>, sep: char)
    requires |pieces| >= 1
    requires forall i :: 0 <= i < |pieces| ==> sep !in pieces[i]
    ensures Split(Join(pieces, [sep]), sep) == pieces
  {
    if |pieces| == 1 {
      SplitNoSeparator(pieces[0], sep);
    } else {
      SplitJoin(pieces[1..], sep);
      SplitPieceThenSeparator(pieces[0], sep, Join(pieces[1..], [sep]));
      assert pieces == [pieces[0]] + pieces[1..];
    }
  }

  /** `keys.findIndex(k => k === key)`: the first position of `key`. */
  function IndexOf<T(==)>(keys: seq<T>, key: T): (r: Option<nat>)
    ensures r.Some? ==> r.value < |keys| && keys[r.value] == key
    ensures r.Some? ==> forall j :: 0 <= j < r.value ==> keys[j] != key
    ensures r.None? <==> key !in keys
  {
    if keys == [] then None
    else if keys[0] == key then Some(0)
    else match IndexOf(keys[1..], key)
      case None => None
      case Some(k) => Some(k + 1)
  }

  predicate Distinct<T(==)>(keys: seq<T>) {
    forall i, j :: 0 <= i < j < |keys| ==> keys[i] != keys[j]
  }
}
