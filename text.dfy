/** The pieces of Python's text handling that the controller relies on:
    white-space stripping, `str.split`, and the conversions between integers
    and decimal text done by `int()` and by the `%u` / `%d` formats. */
module Text {
  import opened Wrappers

  /** `str.isspace()` for one character: the controls tab to carriage return,
      the separators 0x1c..0x1f, the space and Unicode's other white space. */
  predicate IsSpace(c: char) {
    || c == ' '
    || '\t' <= c <= '\r'
    || '\U{1c}' <= c <= '\U{1f}'
    || c == '\U{85}' || c == '\U{a0}' || c == '\U{1680}'
    || '\U{2000}' <= c <= '\U{200a}'
    || c == '\U{2028}' || c == '\U{2029}' || c == '\U{202f}'
    || c == '\U{205f}' || c == '\U{3000}'
  }

  /** `s.rstrip()`: the longest prefix of `s` that does not end in white space. */
  function RStrip(s: string): (r: string)
    ensures r <= s
    ensures r == [] || !IsSpace(r[|r| - 1])
    ensures forall i :: |r| <= i < |s| ==> IsSpace(s[i])
  {
    if |s| > 0 && IsSpace(s[|s| - 1]) then RStrip(s[..|s| - 1]) else s
  }

  predicate IsDigit(c: char) {
    '0' <= c <= '9'
  }

  function DigitValue(c: char): (d: nat)
    requires IsDigit(c)
    ensures d < 10
  {
    c as int - '0' as int
  }

  function DigitChar(d: nat): (c: char)
    requires d < 10
    ensures IsDigit(c) && DigitValue(c) == d
  {
    ('0' as int + d) as char
  }

  /** `"%u" % n` (equivalently `"%d" % n`) for a non-negative `n`: its decimal
      digits, most significant first, with no leading zero. */
  function NatToString(n: nat): (r: string)
    ensures |r| >= 1
    ensures forall i :: 0 <= i < |r| ==> IsDigit(r[i])
    ensures r[0] == '0' <==> n == 0
    ensures n == 0 ==> r == "0"
  {
    if n < 10 then [DigitChar(n)] else NatToString(n / 10) + [DigitChar(n % 10)]
  }

  /** `"%u" % i` for any integer: Python 3 writes a minus sign before the
      digits of a negative value rather than rejecting it. */
  function IntToString(i: int): (r: string)
    ensures |r| >= 1 && IsDigit(r[|r| - 1])
    ensures r[0] == '-' <==> i < 0
    ensures r[0] == '-' || IsDigit(r[0])
  {
    if i < 0 then "-" + NatToString(-i) else NatToString(i)
  }

  /** The value of a string of decimal digits read left to right, starting from `v`. */
  function DigitsValue(v: nat, d: string): nat
    requires forall i :: 0 <= i < |d| ==> IsDigit(d[i])
    decreases |d|
  {
    if d == [] then v else DigitsValue(10 * v + DigitValue(d[0]), d[1..])
  }

  function Abs(i: int): nat {
    if i < 0 then -i else i
  }

  /** The white space `int()` skips around a literal. It converts non-ASCII
      white space (as `str.isspace` has it) to a space and then skips only the
      ASCII tab to carriage return and the space, so the separators 0x1c to
      0x1f, which `rstrip` removes, are not skipped here. */
  predicate IntSpace(c: char) {
    IsSpace(c) && !('\U{1c}' <= c <= '\U{1f}')
  }

  /** The most digits `int()` reads: `sys.get_int_max_str_digits()` by default
      (Python 3.11 and later); a longer literal raises `ValueError`. */
  const MaxStrDigits: nat := 4300

  /** Where `int()` is while it reads its argument left to right; `count` is
      the number of digits read so far. */
  datatype Scanner =
    | Leading                                                  // white space before the literal
    | Signed(negative: bool)                                   // just after `+` or `-`
    | InDigits(negative: bool, value: nat, count: nat, underscore: bool)  // in the digits; after a `_`?
    | Trailing(negative: bool, value: nat, count: nat)         // white space after the literal
    | Rejected                                                 // `ValueError`

  /** The scanner after one more character. White space may surround the
      literal, an optional sign comes first, and single underscores may
      stand between two digits (`"1_000"`); leading zeros are allowed. */
  function Advance(st: Scanner, c: char): Scanner {
    match st
    case Leading =>
      if IntSpace(c) then Leading
      else if c == '+' then Signed(false)
      else if c == '-' then Signed(true)
      else if IsDigit(c) then InDigits(false, DigitValue(c), 1, false)
      else Rejected
    case Signed(neg) =>
      if IsDigit(c) then InDigits(neg, DigitValue(c), 1, false) else Rejected
    case InDigits(neg, v, n, u) =>
      if IsDigit(c) then InDigits(neg, 10 * v + DigitValue(c), n + 1, false)
      else if c == '_' && !u then InDigits(neg, v, n, true)
      else if IntSpace(c) && !u then Trailing(neg, v, n)
      else Rejected
    case Trailing(neg, v, n) =>
      if IntSpace(c) then Trailing(neg, v, n) else Rejected
    case Rejected => Rejected
  }

  /** The scanner after reading `s` from index `i` on. */
  function Scan(s: string, i: nat, st: Scanner): Scanner
    requires i <= |s|
    decreases |s| - i
  {
    if i == |s| then st else Scan(s, i + 1, Advance(st, s[i]))
  }

  /** The integer a finished scan denotes, if it ended inside a literal. */
  function Outcome(st: Scanner): Option<int> {
    match st
    case InDigits(neg, v, _, false) => Some(if neg then -(v as int) else v)
    case Trailing(neg, v, _) => Some(if neg then -(v as int) else v)
    case _ => None
  }

  /** How many digits a scan has read. */
  function DigitsRead(st: Scanner): nat {
    match st
    case InDigits(_, _, n, _) => n
    case Trailing(_, _, n) => n
    case _ => 0
  }

  /** The integer that `s` spells as a base-10 integer literal, however long. */
  function Literal(s: string): Option<int> {
    Outcome(Scan(s, 0, Leading))
  }

  /** `int(s)` for a string `s`, in base 10; None stands for the
      `ValueError` it raises on anything that is not an integer literal of
      at most `MaxStrDigits` digits. */
  function ParseInt(s: string): Option<int> {
    var st := Scan(s, 0, Leading);
    if DigitsRead(st) > MaxStrDigits then None else Outcome(st)
  }

  /** Reading more digits continues the value left to right. */
  lemma {:induction false} ScanDigits(s: string, i: nat, neg: bool, v: nat, n: nat)
    requires i <= |s| && forall k :: i <= k < |s| ==> IsDigit(s[k])
    ensures Scan(s, i, InDigits(neg, v, n, false)) == InDigits(neg, DigitsValue(v, s[i..]), n + |s| - i, false)
    decreases |s| - i
  {
    if i < |s| {
      ScanDigits(s, i + 1, neg, 10 * v + DigitValue(s[i]), n + 1);
      assert s[i..][0] == s[i] && s[i..][1..] == s[i + 1..];
    } else {
      assert s[i..] == [];
    }
  }

  /** A literal made of the digits `s[i..]`, entered from a state that takes
      its first digit as the start of a literal. */
  lemma ScanNumeral(s: string, i: nat, neg: bool, st: Scanner)
    requires i < |s| && forall k :: i <= k < |s| ==> IsDigit(s[k])
    requires Advance(st, s[i]) == InDigits(neg, DigitValue(s[i]), 1, false)
    ensures Scan(s, i, st) == InDigits(neg, DigitsValue(0, s[i..]), |s| - i, false)
  {
    ScanDigits(s, i + 1, neg, DigitValue(s[i]), 1);
    assert s[i..][0] == s[i] && s[i..][1..] == s[i + 1..];
  }

  /** Appending a digit: ten times the value so far, plus the digit. */
  lemma {:induction false} DigitsValueAppend(v: nat, d: string, c: char)
    requires forall i :: 0 <= i < |d| ==> IsDigit(d[i])
    requires IsDigit(c)
    ensures DigitsValue(v, d + [c]) == 10 * DigitsValue(v, d) + DigitValue(c)
    decreases |d|
  {
    if d == [] {
      assert d + [c] == [c] && [c][1..] == [];
    } else {
      assert (d + [c])[0] == d[0] && (d + [c])[1..] == d[1..] + [c];
      DigitsValueAppend(10 * v + DigitValue(d[0]), d[1..], c);
    }
  }

  lemma {:induction false} DigitsValueOfNatToString(n: nat)
    ensures DigitsValue(0, NatToString(n)) == n
  {
    if n < 10 {
      var r := NatToString(n);
      assert r[1..] == [];
    } else {
      DigitsValueOfNatToString(n / 10);
      DigitsValueAppend(0, NatToString(n / 10), DigitChar(n % 10));
    }
  }

  /** A string of digits no longer than the limit is read as its value. */
  lemma ParseIntOfDigits(d: string)
    requires 0 < |d| <= MaxStrDigits && forall k :: 0 <= k < |d| ==> IsDigit(d[k])
    ensures ParseInt(d) == Some(DigitsValue(0, d))
  {
    ScanNumeral(d, 0, false, Leading);
    assert d[0..] == d;
  }

  /** The `%u` text of every integer spells that integer. */
  lemma LiteralOfIntToString(i: int)
    ensures Literal(IntToString(i)) == Some(i)
    ensures DigitsRead(Scan(IntToString(i), 0, Leading)) == |NatToString(Abs(i))|
  {
    var r := IntToString(i);
    var d := NatToString(Abs(i));
    DigitsValueOfNatToString(Abs(i));
    if i < 0 {
      assert r[1..] == d && r[0] == '-';
      assert Scan(r, 0, Leading) == Scan(r, 1, Signed(true));
      ScanNumeral(r, 1, true, Signed(true));
    } else {
      ScanNumeral(r, 0, false, Leading);
      assert r[0..] == r;
    }
  }

  /** `int` reads back what `%u` writes, for every integer whose decimal
      text stays within the digit limit; a longer one is rejected. */
  lemma ParseIntOfIntToString(i: int)
    ensures ParseInt(IntToString(i)) == if |NatToString(Abs(i))| <= MaxStrDigits then Some(i) else None
  {
    LiteralOfIntToString(i);
  }

  /** One more digit lengthens the decimal text by at most one character. */
  lemma NatToStringStep(v: nat, d: nat)
    requires d < 10
    ensures |NatToString(10 * v + d)| <= |NatToString(v)| + 1
  {
    if v > 0 {
      assert (10 * v + d) / 10 == v && (10 * v + d) % 10 == d;
    }
  }

  /** A scanner state whose value has no more decimal digits than were read. */
  predicate Bounded(st: Scanner) {
    match st
    case InDigits(_, v, n, _) => |NatToString(v)| <= n
    case Trailing(_, v, n) => |NatToString(v)| <= n
    case _ => true
  }

  lemma {:induction false} ScanBounded(s: string, i: nat, st: Scanner)
    requires i <= |s| && Bounded(st)
    ensures Bounded(Scan(s, i, st))
    decreases |s| - i
  {
    if i < |s| {
      if st.InDigits? && IsDigit(s[i]) {
        NatToStringStep(st.value, DigitValue(s[i]));
      }
      ScanBounded(s, i + 1, Advance(st, s[i]));
    }
  }

  /** Whatever `int()` accepts has at most `MaxStrDigits` digits in its
      decimal text, so `%u` writes it back within the limit. */
  lemma ParsedWithinLimit(s: string)
    requires ParseInt(s).Some?
    ensures |NatToString(Abs(ParseInt(s).value))| <= MaxStrDigits
  {
    ScanBounded(s, 0, Leading);
  }

  /** Before any digit the scanner is still looking for the literal, or has rejected it. */
  predicate BeforeDigits(st: Scanner) {
    st.Leading? || st.Signed? || st.Rejected?
  }

  lemma {:induction false} ScanWithoutDigits(s: string, i: nat, st: Scanner)
    requires i <= |s| && BeforeDigits(st)
    requires forall k :: i <= k < |s| ==> !IsDigit(s[k])
    ensures BeforeDigits(Scan(s, i, st))
    decreases |s| - i
  {
    if i < |s| {
      ScanWithoutDigits(s, i + 1, Advance(st, s[i]));
    }
  }

  /** Text without a single digit is never an integer: `int()` rejects it. */
  lemma ParseIntNeedsDigit(s: string)
    requires forall i :: 0 <= i < |s| ==> !IsDigit(s[i])
    ensures ParseInt(s) == None
  {
    ScanWithoutDigits(s, 0, Leading);
  }

  /** `int()` does not skip the separators 0x1c to 0x1f, although `rstrip` removes them. */
  lemma SeparatorIsNotIntSpace()
    ensures ParseInt("\U{1c}5") == None && IsSpace('\U{1c}')
  {
  }

  /** Number of occurrences of `c` in `s`. */
  function Count(s: string, c: char): nat {
    if s == [] then 0 else (if s[0] == c then 1 else 0) + Count(s[1..], c)
  }

  /** `s.split(sep)` for a one-character separator: the pieces between the
      separators, always one more than there are separators, none of them
      containing the separator. */
  function Split(s: string, sep: char): (r: seq<string>)
    ensures |r| == Count(s, sep) + 1
    ensures forall i :: 0 <= i < |r| ==> sep !in r[i]
  {
    if s == [] then [[]]
    else
      var rest := Split(s[1..], sep);
      if s[0] == sep then [[]] + rest else [[s[0]] + rest[0]] + rest[1..]
  }

  /** `sep.join(fields)`, the inverse of `Split`. */
  function Join(fields: seq<string>, sep: char): string {
    if fields == [] then []
    else if |fields| == 1 then fields[0]
    else fields[0] + [sep] + Join(fields[1..], sep)
  }

  lemma {:induction false} JoinSplit(s: string, sep: char)
    ensures Join(Split(s, sep), sep) == s
  {
    if s != [] {
      var rest := Split(s[1..], sep);
      JoinSplit(s[1..], sep);
      if s[0] == sep {
        assert Split(s, sep) == [[]] + rest;
      } else {
        var r := Split(s, sep);
        assert r[0] == [s[0]] + rest[0] && r[1..] == rest[1..];
        if |rest| == 1 {
          assert r == [[s[0]] + rest[0]];
        } else {
          assert Join(rest, sep) == rest[0] + [sep] + Join(rest[1..], sep);
        }
      }
    }
  }

  /** Splitting `f + rest`, where `f` holds no separator, glues `f` onto the
      first field of `rest`. */
  lemma {:induction false} SplitPrefix(f: string, rest: string, sep: char)
    requires sep !in f
    ensures var r := Split(rest, sep);
            Split(f + rest, sep) == [f + r[0]] + r[1..]
  {
    if f != [] {
      var r := Split(rest, sep);
      SplitPrefix(f[1..], rest, sep);
      assert (f + rest)[1..] == f[1..] + rest;
      var inner := Split(f[1..] + rest, sep);
      assert inner[0] == f[1..] + r[0] && inner[1..] == r[1..];
      assert [f[0]] + inner[0] == f + r[0];
    } else {
      var r := Split(rest, sep);
      assert f + rest == rest;
      assert f + r[0] == r[0];
      assert [r[0]] + r[1..] == r;
    }
  }

  /** Fields free of the separator come back unchanged from joining and splitting. */
  lemma {:induction false} SplitJoin(fields: seq<string>, sep: char)
    requires |fields| >= 1
    requires forall i :: 0 <= i < |fields| ==> sep !in fields[i]
    ensures Split(Join(fields, sep), sep) == fields
  {
    if |fields| == 1 {
      SplitPrefix(fields[0], [], sep);
      assert fields[0] + [] == fields[0];
    } else {
      var tail := Join(fields[1..], sep);
      SplitJoin(fields[1..], sep);
      SplitPrefix(fields[0], [sep] + tail, sep);
      assert fields[0] + [sep] + tail == fields[0] + ([sep] + tail);
      assert ([sep] + tail)[1..] == tail;
      assert Split([sep] + tail, sep) == [[]] + fields[1..];
      assert fields[0] + [] == fields[0];
    }
  }
}
