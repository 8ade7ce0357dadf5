/** The wire form "row,column" of a cell: how it is printed and how it is parsed back. */
module Wire {
  import opened Board

  // ----- printing -----

  function DigitChar(d: nat): char
    requires d < 10
  {
    "0123456789"[d]
  }

  function Decimal(k: nat): string {
    if k < 10 then [DigitChar(k)] else Decimal(k / 10) + [DigitChar(k % 10)]
  }

  /** The decimal text of an integer. */
  function IntText(k: int): string {
    if k < 0 then "-" + Decimal(-k) else Decimal(k)
  }

  function FormatCell(cell: Cell): string {
    IntText(cell.0) + "," + IntText(cell.1)
  }

  /** Row before column, the tens before the ones. */
  lemma FormatsRowFirst(a: nat, b: nat, c: nat, d: nat)
    requires a < 10 && b < 10 && c < 10 && d < 10 && a > 0 && c > 0
    ensures FormatCell((b, d)) == ["0123456789"[b], ',', "0123456789"[d]]
    ensures FormatCell((10 * a + b, 10 * c + d)) ==
            ["0123456789"[a], "0123456789"[b], ',', "0123456789"[c], "0123456789"[d]]
  {
    hide Decimal;
    OneDigitText(b);
    OneDigitText(d);
    TwoDigitText(a, b);
    TwoDigitText(c, d);
  }

  lemma OneDigitText(a: nat)
    requires a < 10
    ensures Decimal(a) == ["0123456789"[a]]
  {
  }

  lemma TwoDigitText(a: nat, b: nat)
    requires 0 < a < 10 && b < 10
    ensures Decimal(10 * a + b) == ["0123456789"[a], "0123456789"[b]]
  {
    OneDigitText(a);
    assert (10 * a + b) / 10 == a && (10 * a + b) % 10 == b;
  }

  // ----- parsing (ASCII text) -----

  predicate IsSpace(c: char) {
    c in " \t\n\r\U{00000B}\U{00000C}\U{00001C}\U{00001D}\U{00001E}\U{00001F}"
  }

  function StripLeft(s: string): string {
    if s != [] && IsSpace(s[0]) then StripLeft(s[1..]) else s
  }

  function StripRight(s: string): string {
    if s != [] && IsSpace(s[|s| - 1]) then StripRight(s[..|s| - 1]) else s
  }

  predicate IsDigit(c: char) { '0' <= c <= '9' }

  function DigitValue(c: char): nat
    requires IsDigit(c)
  {
    (c - '0') as nat
  }

  /** Digits, with single underscores allowed between two of them. */
  function ParseDigits(s: string): Option<nat> {
    if s == [] || !IsDigit(s[|s| - 1]) then None
    else
      var d := DigitValue(s[|s| - 1]);
      var front := s[..|s| - 1];
      if front == [] then Some(d)
      else
        var high := if front[|front| - 1] == '_' then ParseDigits(front[..|front| - 1]) else ParseDigits(front);
        if high.None? then None else Some(10 * high.value + d)
  }

  /** Surrounding blanks and one sign are allowed around the digits. */
  function ParseInt(s: string): Option<int> {
    var body := StripRight(StripLeft(s));
    var signed := body != [] && (body[0] == '-' || body[0] == '+');
    match ParseDigits(if signed then body[1..] else body)
    case None => None
    case Some(magnitude) =>
      var size: int := magnitude;
      Some(if signed && body[0] == '-' then -size else size)
  }

  /** The pieces of s between separators; there is always at least one. */
  function Split(s: string, separator: char): (parts: seq<string>)
    ensures |parts| > 0
  {
    if s == [] then [[]]
    else
      var rest := Split(s[1..], separator);
      if s[0] == separator then [[]] + rest else [[s[0]] + rest[0]] + rest[1..]
  }

  /** A well-formed key naming a cell of the board; anything else is rejected. */
  function ParseCell(key: string, size: int): Option<Cell> {
    var parts := Split(key, ',');
    if |parts| != 2 then None
    else
      var row := ParseInt(parts[0]);
      var column := ParseInt(parts[1]);
      if row.None? || column.None? then None
      else if InBounds((row.value, column.value), size) then Some((row.value, column.value))
      else None
  }

  // ----- round trip -----

  predicate AllDigits(s: string) {
    forall i :: 0 <= i < |s| ==> IsDigit(s[i])
  }

  lemma AppendDigit(high: string, d: nat)
    requires high != [] && AllDigits(high) && d < 10 && ParseDigits(high).Some?
    ensures AllDigits(high + [DigitChar(d)])
    ensures ParseDigits(high + [DigitChar(d)]) == Some(10 * ParseDigits(high).value + d)
  {
    var s := high + [DigitChar(d)];
    assert s[..|s| - 1] == high;
    assert IsDigit(high[|high| - 1]);
  }

  lemma OneDigit(d: nat)
    requires d < 10
    ensures AllDigits([DigitChar(d)]) && ParseDigits([DigitChar(d)]) == Some(d)
  {
  }

  lemma {:induction false} DecimalRoundTrip(k: nat)
    ensures Decimal(k) != [] && AllDigits(Decimal(k)) && ParseDigits(Decimal(k)) == Some(k)
  {
    hide ParseDigits, DigitChar;
    if k < 10 {
      OneDigit(k);
    } else {
      DecimalRoundTrip(k / 10);
      AppendDigit(Decimal(k / 10), k % 10);
    }
  }

  lemma StripKeeps(s: string)
    requires s != [] && !IsSpace(s[0]) && !IsSpace(s[|s| - 1])
    ensures StripRight(StripLeft(s)) == s
  {
  }

  lemma NoComma(digits: string)
    requires AllDigits(digits)
    ensures ',' !in digits
  {
  }

  lemma ParseSigned(digits: string, size: int)
    requires digits != [] && AllDigits(digits)
    requires ParseDigits(digits).Some? && ParseDigits(digits).value == size
    ensures ParseInt(digits) == Some(size)
    ensures ParseInt("-" + digits) == Some(-size)
  {
    assert IsDigit(digits[0]) && IsDigit(digits[|digits| - 1]);
    StripKeeps(digits);
    var negative := "-" + digits;
    assert negative[1..] == digits;
    StripKeeps(negative);
  }

  /** Printing an integer and parsing it back gives the integer. */
  lemma IntRoundTrip(k: int)
    ensures ParseInt(IntText(k)) == Some(k)
    ensures ',' !in IntText(k)
  {
    var size := if k < 0 then -k else k;
    DecimalRoundTrip(size);
    NoComma(Decimal(size));
    ParseSigned(Decimal(size), size);
  }

  lemma {:induction false} SplitNoSeparator(s: string, separator: char)
    requires separator !in s
    ensures Split(s, separator) == [s]
  {
    if s != [] {
      assert s == [s[0]] + s[1..];
      SplitNoSeparator(s[1..], separator);
    }
  }

  lemma {:induction false} SplitOnce(a: string, b: string, separator: char)
    requires separator !in a && separator !in b
    ensures Split(a + [separator] + b, separator) == [a, b]
  {
    var s := a + [separator] + b;
    if a == [] {
      assert s[1..] == b;
      SplitNoSeparator(b, separator);
    } else {
      assert a == [a[0]] + a[1..];
      assert s[0] == a[0];
      assert s[1..] == a[1..] + [separator] + b;
      SplitOnce(a[1..], b, separator);
    }
  }

  /** A printed cell parses back to itself exactly when it is on the board. */
  lemma CellRoundTrip(cell: Cell, size: int)
    ensures ParseCell(FormatCell(cell), size) == if InBounds(cell, size) then Some(cell) else None
  {
    IntRoundTrip(cell.0);
    IntRoundTrip(cell.1);
    SplitOnce(IntText(cell.0), IntText(cell.1), ',');
  }

  /** Distinct cells have distinct wire keys. */
  lemma FormatCellInjective(a: Cell, b: Cell)
    requires FormatCell(a) == FormatCell(b)
    ensures a == b
  {
    IntRoundTrip(a.0);
    IntRoundTrip(a.1);
    IntRoundTrip(b.0);
    IntRoundTrip(b.1);
    SplitOnce(IntText(a.0), IntText(a.1), ',');
    SplitOnce(IntText(b.0), IntText(b.1), ',');
    assert [IntText(a.0), IntText(a.1)] == [IntText(b.0), IntText(b.1)];
    assert [IntText(a.0), IntText(a.1)][0] == [IntText(b.0), IntText(b.1)][0];
    assert [IntText(a.0), IntText(a.1)][1] == [IntText(b.0), IntText(b.1)][1];
  }
}
