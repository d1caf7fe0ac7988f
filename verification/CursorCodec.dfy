/**
 The text of an audit-log cursor before base64: the timestamp in decimal, an underscore, and the
 24 hexadecimal digits of the row's id.
 */
module CursorCodec {
  import opened Common
  import opened Pagination

  const OBJECT_ID_DIGITS := 24

  function Pow16(n: nat): nat { if n == 0 then 1 else 16 * Pow16(n - 1) }

  function Digit(n: nat): char
    requires n < 16
  {
    "0123456789abcdef"[n]
  }

  predicate IsHex(c: char) { '0' <= c <= '9' || 'a' <= c <= 'f' || 'A' <= c <= 'F' }

  predicate IsDecimal(c: char) { '0' <= c <= '9' }

  function Value(c: char): (v: nat)
    requires IsHex(c)
    ensures v < 16
  {
    if c <= '9' then (c - '0') as nat else if c <= 'F' then (c - 'A') as nat + 10 else (c - 'a') as nat + 10
  }

  lemma DigitValue(n: nat)
    requires n < 16
    ensures IsHex(Digit(n)) && Value(Digit(n)) == n && (n < 10 ==> IsDecimal(Digit(n))) && Digit(n) != '_'
  {
  }

  // ----- the id -----

  function Hex(id: nat, digits: nat): (s: string)
    ensures |s| == digits
  {
    if digits == 0 then "" else Hex(id / 16, digits - 1) + [Digit(id % 16)]
  }

  function ParseHex(s: string): nat
    requires forall c <- s :: IsHex(c)
  {
    if s == "" then 0 else 16 * ParseHex(s[..|s| - 1]) + Value(s[|s| - 1])
  }

  lemma {:induction false} HexRoundTrip(id: nat, digits: nat)
    requires id < Pow16(digits)
    ensures forall c <- Hex(id, digits) :: IsHex(c) && c != '_'
    ensures ParseHex(Hex(id, digits)) == id
  {
    if digits > 0 {
      HexRoundTrip(id / 16, digits - 1);
      DigitValue(id % 16);
      assert Hex(id, digits)[..digits - 1] == Hex(id / 16, digits - 1);
    }
  }

  // ----- the timestamp -----

  function Digits(n: nat): (s: string)
    ensures s != ""
  {
    if n < 10 then [Digit(n)] else Digits(n / 10) + [Digit(n % 10)]
  }

  function Decimal(n: int): string { if n < 0 then "-" + Digits(-n) else Digits(n) }

  /** The decimal digits that `s` starts with. */
  function DigitPrefix(s: string): (p: string)
    ensures |p| <= |s| && p == s[..|p|] && forall c <- p :: IsDecimal(c)
  {
    if s == "" || !IsDecimal(s[0]) then "" else [s[0]] + DigitPrefix(s[1..])
  }

  function Number(s: string): int
    requires forall c <- s :: IsDecimal(c)
  {
    if s == "" then 0
    else
      assert IsDecimal(s[|s| - 1]);
      10 * Number(s[..|s| - 1]) + Value(s[|s| - 1])
  }

  function TrimStart(s: string): string
  {
    if s != "" && s[0] in " \t\n\r" then TrimStart(s[1..]) else s
  }

  /** An optional sign and a run of digits; what follows is ignored, and no digit means no number. */
  function ParseInt(text: string): Option<int>
  {
    var s := TrimStart(text);
    var negative := s != "" && s[0] == '-';
    var p := DigitPrefix(if s != "" && s[0] in "+-" then s[1..] else s);
    if p == "" then None else Some(if negative then -Number(p) else Number(p))
  }

  lemma {:induction false} AllDigits(s: string)
    requires forall c <- s :: IsDecimal(c)
    ensures DigitPrefix(s) == s
  {
    if s != "" { AllDigits(s[1..]); }
  }

  lemma {:induction false} DigitsRoundTrip(n: nat)
    ensures forall c <- Digits(n) :: IsDecimal(c)
    ensures Number(Digits(n)) == n
  {
    if n >= 10 {
      DigitsRoundTrip(n / 10);
      DigitValue(n % 10);
      var s := Digits(n);
      assert s[..|s| - 1] == Digits(n / 10);
    } else {
      DigitValue(n);
      assert Number("") == 0 && [Digit(n)][..0] == "";
    }
  }

  lemma ParseDigits(s: string)
    requires s != "" && forall c <- s :: IsDecimal(c)
    ensures ParseInt(s) == Some(Number(s)) && ParseInt("-" + s) == Some(-Number(s))
  {
    AllDigits(s);
    assert IsDecimal(s[0]) && TrimStart(s) == s;
    assert TrimStart("-" + s) == "-" + s && ("-" + s)[1..] == s;
  }

  lemma DecimalRoundTrip(n: int)
    ensures ParseInt(Decimal(n)) == Some(n) && '_' !in Decimal(n)
  {
    var k := if n < 0 then -n else n;
    DigitsRoundTrip(k);
    ParseDigits(Digits(k));
  }

  // ----- the cursor -----

  function Split(s: string, sep: char): (parts: seq<string>)
    ensures parts != []
  {
    if s == "" then [""]
    else
      var rest := Split(s[1..], sep);
      if s[0] == sep then [""] + rest else [[s[0]] + rest[0]] + rest[1..]
  }

  lemma {:induction false} SplitPlain(s: string, sep: char)
    requires sep !in s
    ensures Split(s, sep) == [s]
  {
    if s != "" {
      SplitPlain(s[1..], sep);
      assert [s[0]] + s[1..] == s;
    }
  }

  lemma {:induction false} SplitPair(a: string, b: string, sep: char)
    requires sep !in a && sep !in b
    ensures Split(a + [sep] + b, sep) == [a, b]
  {
    var s := a + [sep] + b;
    if a == "" {
      assert s[1..] == b;
      SplitPlain(b, sep);
    } else {
      assert s[1..] == a[1..] + [sep] + b;
      SplitPair(a[1..], b, sep);
      assert [a[0]] + a[1..] == a;
    }
  }

  function EncodeCursor(c: Row): string { Decimal(c.createdAt) + "_" + Hex(c.id, OBJECT_ID_DIGITS) }

  /** `None` stands for the "Invalid cursor" error. */
  function DecodeCursor(raw: string): (r: Option<Row>)
  {
    var parts := Split(raw, '_');
    if |parts| != 2 then None
    else
      var t, id := ParseInt(parts[0]), parts[1];
      if t.None? || |id| != OBJECT_ID_DIGITS || exists c <- id :: !IsHex(c) then None
      else Some(Row(t.value, ParseHex(id)))
  }

  /** The cursor handed to a client comes back as the row it was made from. */
  lemma CursorRoundTrip(c: Row)
    requires c.id < Pow16(OBJECT_ID_DIGITS)
    ensures DecodeCursor(EncodeCursor(c)) == Some(c)
  {
    DecimalRoundTrip(c.createdAt);
    HexRoundTrip(c.id, OBJECT_ID_DIGITS);
    SplitPair(Decimal(c.createdAt), Hex(c.id, OBJECT_ID_DIGITS), '_');
  }

  /** One part means no separator, and two parts are the text around the only one. */
  lemma {:induction false} SplitParts(s: string, sep: char)
    ensures var parts := Split(s, sep);
            && (|parts| == 1 ==> parts[0] == s && sep !in s)
            && (|parts| == 2 ==> s == parts[0] + [sep] + parts[1] && sep !in parts[0] && sep !in parts[1])
  {
    if s != "" {
      SplitParts(s[1..], sep);
      assert s == [s[0]] + s[1..];
    }
  }

  /** The text is a number, one underscore, and 24 hexadecimal digits. */
  predicate IsCursor(raw: string, number: string, id: string)
  {
    && raw == number + "_" + id && '_' !in number && '_' !in id
    && ParseInt(number).Some? && |id| == 24 && forall c <- id :: IsHex(c)
  }

  /** A cursor is accepted exactly when it has that shape, and then it means that pair; everything else is invalid. */
  lemma DecodeIff(raw: string)
    ensures DecodeCursor(raw).Some? <==> exists number, id :: IsCursor(raw, number, id)
    ensures forall number, id | IsCursor(raw, number, id) ::
              DecodeCursor(raw) == Some(Row(ParseInt(number).value, ParseHex(id)))
  {
    SplitParts(raw, '_');
    forall number, id | IsCursor(raw, number, id)
      ensures DecodeCursor(raw) == Some(Row(ParseInt(number).value, ParseHex(id)))
    {
      SplitPair(number, id, '_');
    }
    if DecodeCursor(raw).Some? {
      assert IsCursor(raw, Split(raw, '_')[0], Split(raw, '_')[1]);
    }
  }
}
