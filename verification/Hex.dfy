/**
 BINARY and VARBINARY columns: the SELECT path asks the server for `hex(col)`, the binlog path
 encodes the bytes itself.  The reader of the binlog hands them over without trailing null bytes.
 */
module Hex {
  import opened Singer

  type Byte = b: int | 0 <= b < 256

  /** The letters of a hexadecimal number. */
  datatype Letters = Upper | Lower

  function Digit(d: int, letters: Letters): char
    requires 0 <= d < 16
  {
    if d < 10 then '0' + d as char
    else if letters.Upper? then 'A' + (d - 10) as char
    else 'a' + (d - 10) as char
  }

  function Encode(v: seq<Byte>, letters: Letters): (s: string)
    ensures |s| == 2 * |v|
  {
    if v == [] then []
    else Encode(v[..|v| - 1], letters)
         + [Digit(v[|v| - 1] / 16, letters), Digit(v[|v| - 1] % 16, letters)]
  }

  /** The value as the reader has it: the trailing null bytes are gone. */
  function Stripped(v: seq<Byte>): seq<Byte> {
    if v != [] && v[|v| - 1] == 0 then Stripped(v[..|v| - 1]) else v
  }

  /** `str.ljust(width, '0')`. */
  function LeftJustified(s: string, width: nat): (padded: string)
    ensures |padded| == if |s| < width then width else |s|
    decreases width - |s|
  {
    if |s| < width then LeftJustified(s + ['0'], width) else s
  }

  /** The binary branch of `row_to_singer_record`: lower-case digits, padded to the declared length
      if the event has it. */
  function BinlogValue(v: seq<Byte>, maxLength: Option<nat>): string {
    match maxLength
    case Some(n) => LeftJustified(Encode(v, Lower), n * 2)
    case None => Encode(v, Lower)
  }

  /** What `hex(col)` returns. */
  function SelectedValue(v: seq<Byte>): string {
    Encode(v, Upper)
  }

  predicate SameLetter(a: char, b: char) {
    a == b || ('a' <= a <= 'f' && b as int == a as int - 32)
  }

  /** Equal up to the case of the letters: lower case on the left, upper case on the right. */
  ghost predicate SameDigits(a: string, b: string) {
    |a| == |b| && forall i :: 0 <= i < |a| ==> SameLetter(a[i], b[i])
  }

  lemma {:induction false} EncodeSame(v: seq<Byte>)
    ensures SameDigits(Encode(v, Lower), Encode(v, Upper))
  {
    if v != [] {
      var front, b := v[..|v| - 1], v[|v| - 1];
      EncodeSame(front);
      assert SameLetter(Digit(b / 16, Lower), Digit(b / 16, Upper));
      assert SameLetter(Digit(b % 16, Lower), Digit(b % 16, Upper));
    }
  }

  lemma {:induction false} StrippedIsShorter(v: seq<Byte>)
    ensures |Stripped(v)| <= |v|
  {
    if v != [] { StrippedIsShorter(v[..|v| - 1]); }
  }

  /** Padding puts back exactly the digits of the null bytes that were stripped. */
  lemma {:induction false} PaddingRestores(v: seq<Byte>)
    ensures LeftJustified(Encode(Stripped(v), Lower), 2 * |v|) == Encode(v, Lower)
  {
    if v != [] && v[|v| - 1] == 0 {
      var front := v[..|v| - 1];
      PaddingRestores(front);
      StrippedIsShorter(front);
      PadTwoMore(Encode(Stripped(front), Lower), 2 * |front|);
      assert Digit(0, Lower) == '0';
    }
  }

  lemma {:induction false} PadTwoMore(s: string, width: nat)
    requires |s| <= width
    ensures LeftJustified(s, width + 2) == LeftJustified(s, width) + ['0', '0']
    decreases width - |s|
  {
    if |s| < width {
      PadTwoMore(s + ['0'], width);
    } else {
      assert LeftJustified(s, width + 2) == LeftJustified(s + ['0'], width + 2)
             == LeftJustified(s + ['0'] + ['0'], width + 2);
    }
  }

  // ----- reading the digits back -----

  const LOWER_DIGITS := "0123456789abcdef"
  const UPPER_DIGITS := "0123456789ABCDEF"

  /** The number that a digit stands for: its place in the list of digits. */
  function Place(digits: string, c: char): nat {
    if digits == "" || digits[0] == c then 0 else 1 + Place(digits[1..], c)
  }

  /** Read two digits at a time, the text is the bytes. */
  ghost predicate ReadsAs(text: string, v: seq<Byte>, digits: string) {
    |text| == 2 * |v| && forall i :: 0 <= i < |v| ==> ByteReadsAs(text, i, v[i], digits)
  }

  predicate ByteReadsAs(text: string, i: nat, byte: Byte, digits: string)
    requires 2 * i + 1 < |text|
  {
    var high, low := text[2 * i], text[2 * i + 1];
    high in digits && low in digits && byte == 16 * Place(digits, high) + Place(digits, low)
  }

  lemma {:induction false} PlaceIs(digits: string, d: nat)
    requires d < |digits| && forall j :: 0 <= j < d ==> digits[j] != digits[d]
    ensures Place(digits, digits[d]) == d
  {
    if d > 0 { PlaceIs(digits[1..], d - 1); }
  }

  lemma DigitsRead(d: int)
    requires 0 <= d < 16
    ensures Digit(d, Lower) in LOWER_DIGITS && Place(LOWER_DIGITS, Digit(d, Lower)) == d
    ensures Digit(d, Upper) in UPPER_DIGITS && Place(UPPER_DIGITS, Digit(d, Upper)) == d
  {
    hide Place;
    assert Digit(d, Lower) == LOWER_DIGITS[d] && Digit(d, Upper) == UPPER_DIGITS[d];
    PlaceIs(LOWER_DIGITS, d);
    PlaceIs(UPPER_DIGITS, d);
  }

  lemma ReadsOneMore(text: string, v: seq<Byte>, digits: string, high: char, low: char, byte: Byte)
    requires ReadsAs(text, v, digits) && ByteReadsAs([high, low], 0, byte, digits)
    ensures ReadsAs(text + [high, low], v + [byte], digits)
  {
    hide Place;
    var all := text + [high, low];
    forall i | 0 <= i < |v| ensures ByteReadsAs(all, i, v[i], digits) {
      assert ByteReadsAs(text, i, v[i], digits);
    }
  }

  lemma {:induction false} EncodeReads(v: seq<Byte>, letters: Letters)
    ensures ReadsAs(Encode(v, letters), v, if letters == Upper then UPPER_DIGITS else LOWER_DIGITS)
  {
    hide Digit, Place, ReadsAs;
    var digits := if letters == Upper then UPPER_DIGITS else LOWER_DIGITS;
    if v == [] {
      NothingReads(digits);
    } else {
      var front, byte := v[..|v| - 1], v[|v| - 1];
      EncodeReads(front, letters);
      DigitsRead(byte / 16);
      DigitsRead(byte % 16);
      ReadsOneMore(Encode(front, letters), front, digits, Digit(byte / 16, letters), Digit(byte % 16, letters), byte);
      assert v == front + [byte];
    }
  }

  lemma NothingReads(digits: string)
    ensures ReadsAs("", [], digits)
  {
  }

  /** On both paths the text of a BINARY(n) value is its bytes, in lower case from the binlog and in upper case
      from the query. */
  lemma BinaryValuesReadBack(v: seq<Byte>)
    ensures ReadsAs(BinlogValue(Stripped(v), Some(|v|)), v, LOWER_DIGITS)
    ensures ReadsAs(SelectedValue(v), v, UPPER_DIGITS)
  {
    PaddingRestores(v);
    EncodeReads(v, Lower);
    EncodeReads(v, Upper);
  }

  /** The bytes, and null bytes up to the width. */
  function Padded(v: seq<Byte>, n: nat): seq<Byte> {
    v + seq(if |v| < n then n - |v| else 0, i => 0)
  }

  lemma {:induction false} StrippedPads(v: seq<Byte>, n: nat)
    requires |v| <= n
    ensures Stripped(Padded(v, n)) == Stripped(v)
    decreases n - |v|
  {
    if |v| == n {
      assert Padded(v, n) == v;
    } else {
      StrippedPads(v + [0], n);
      assert Padded(v + [0], n) == Padded(v, n);
      assert (v + [0])[..|v|] == v;
    }
  }

  /** Whatever the length of the value, the binlog's text is the value that the reader has with null bytes up to
      the declared length, or that value itself. */
  lemma BinlogValueReadsBack(v: seq<Byte>, n: nat)
    requires |v| <= n
    ensures ReadsAs(BinlogValue(Stripped(v), Some(n)), Padded(v, n), LOWER_DIGITS)
    ensures ReadsAs(BinlogValue(Stripped(v), None), Stripped(v), LOWER_DIGITS)
  {
    StrippedPads(v, n);
    BinaryValuesReadBack(Padded(v, n));
    EncodeReads(Stripped(v), Lower);
  }

  /** The byte 10 is 0a from the binlog and 0A from the query. */
  lemma TenIsALetter()
    ensures BinlogValue(Stripped([10]), Some(1)) == "0a" && SelectedValue([10]) == "0A"
  {
    var ten: seq<Byte> := [10];
    assert ten[..0] == [] && Encode(ten, Lower) == Encode(ten[..0], Lower) + ['0', 'a'] == "0a";
    assert Encode(ten, Upper) == Encode(ten[..0], Upper) + ['0', 'A'] == "0A";
  }

  /** For a BINARY(n) column the two paths agree on every value, up to letter case. */
  lemma BinaryPathsAgree(v: seq<Byte>)
    ensures SameDigits(BinlogValue(Stripped(v), Some(|v|)), SelectedValue(v))
  {
    PaddingRestores(v);
    EncodeSame(v);
  }

  /** For a VARBINARY(n) column they agree exactly on the values of full length: any other one comes
      out of the binlog path with zeros that it does not have. */
  lemma VarbinaryPathsAgreeExactlyWhenFull(v: seq<Byte>, n: nat)
    requires |v| <= n
    ensures SameDigits(BinlogValue(v, Some(n)), SelectedValue(v)) <==> |v| == n
    ensures SameDigits(BinlogValue(Stripped(v), Some(n)), SelectedValue(v)) <==> |v| == n
  {
    EncodeSame(v);
    StrippedIsShorter(v);
    if |v| == n { BinaryPathsAgree(v); }
  }

  /** One byte in a VARBINARY(2) column comes out of the binlog with two digits more. */
  lemma ShortValueIsPadded()
    ensures BinlogValue([1], Some(2)) == "0100" && SelectedValue([1]) == "01"
    ensures !SameDigits(BinlogValue([1], Some(2)), SelectedValue([1]))
  {
    var one: seq<Byte> := [1];
    assert one[..0] == [] && Encode(one, Lower) == Encode(one[..0], Lower) + ['0', '1'] == "01";
    assert Encode(one, Upper) == Encode(one[..0], Upper) + ['0', '1'] == "01";
    assert LeftJustified("01", 4) == LeftJustified("010", 4) == LeftJustified("0100", 4) by {
      assert "01" + ['0'] == "010" && "010" + ['0'] == "0100";
    }
  }

  /** Without a declared length they agree exactly when no null byte was stripped. */
  lemma UnpaddedPathsAgreeExactlyWhenNothingIsStripped(v: seq<Byte>)
    ensures SameDigits(BinlogValue(Stripped(v), None), SelectedValue(v)) <==> (v == [] || v[|v| - 1] != 0)
  {
    EncodeSame(v);
    if v != [] { StrippedIsShorter(v[..|v| - 1]); }
  }

  /** A null byte in a column without a declared length does not come out of the binlog at all. */
  lemma NullByteIsLost()
    ensures BinlogValue(Stripped([0]), None) == "" && SelectedValue([0]) == "00"
  {
    var zero: seq<Byte> := [0];
    assert zero[..0] == [] && Stripped(zero) == Stripped(zero[..0]) == [];
    assert Encode(zero, Upper) == Encode(zero[..0], Upper) + ['0', '0'] == "00";
  }
}
