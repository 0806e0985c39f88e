/**
 The order of binlog file names, and of binlog coordinates.

 The tap compares file names as Python strings: in the end test of the binlog loop and in the
 walk over the sorted server logs.  MySQL numbers the files and pads the number with zeros, so
 the comparison is about age only as long as it agrees with the numbers.
 */
module FileNames {

  /** Python's `<` on strings: the first difference decides, a proper prefix comes first. */
  predicate Less(a: string, b: string) {
    b != "" && (a == "" || a[0] < b[0] || (a[0] == b[0] && Less(a[1..], b[1..])))
  }

  lemma {:induction false} LessIrreflexive(a: string)
    ensures !Less(a, a)
  {
    if a != "" { LessIrreflexive(a[1..]); }
  }

  lemma {:induction false} LessTransitive(a: string, b: string, c: string)
    requires Less(a, b) && Less(b, c)
    ensures Less(a, c)
  {
    if a != "" && a[0] == b[0] && b[0] == c[0] { LessTransitive(a[1..], b[1..], c[1..]); }
  }

  lemma {:induction false} LessTotal(a: string, b: string)
    ensures a == b || Less(a, b) || Less(b, a)
  {
    if a != "" && b != "" && a[0] == b[0] {
      LessTotal(a[1..], b[1..]);
      assert a == [a[0]] + a[1..] && b == [b[0]] + b[1..];
    }
  }

  lemma {:induction false} LessCommonPrefix(p: string, a: string, b: string)
    ensures Less(p + a, p + b) <==> Less(a, b)
  {
    if p == "" {
      assert p + a == a && p + b == b;
    } else {
      assert (p + a)[1..] == p[1..] + a && (p + b)[1..] == p[1..] + b;
      LessCommonPrefix(p[1..], a, b);
    }
  }

  lemma {:induction false} LessLonger(a: string, b: string, c: string)
    requires |a| == |b| && c != ""
    ensures Less(a, b + c) <==> a == b || Less(a, b)
  {
    if a != "" {
      assert (b + c)[1..] == b[1..] + c;
      LessLonger(a[1..], b[1..], c);
      assert a == [a[0]] + a[1..] && b == [b[0]] + b[1..];
    }
  }

  function Pow10(n: nat): (p: nat)
    ensures p > 0
  {
    if n == 0 then 1 else 10 * Pow10(n - 1)
  }

  /** The decimal digits of `n`, padded with zeros to `width`. */
  function Digits(n: nat, width: nat): (s: string)
    requires n < Pow10(width)
    ensures |s| == width
  {
    if width == 0 then "" else Digits(n / 10, width - 1) + ["0123456789"[n % 10]]
  }

  lemma {:induction false} LessAppended(a: string, b: string, c: char, d: char)
    requires |a| == |b|
    ensures Less(a + [c], b + [d]) <==> Less(a, b) || (a == b && c < d)
  {
    if a == "" {
      assert a + [c] == [c] && b + [d] == [d];
    } else {
      assert (a + [c])[1..] == a[1..] + [c] && (b + [d])[1..] == b[1..] + [d];
      LessAppended(a[1..], b[1..], c, d);
      assert a == [a[0]] + a[1..] && b == [b[0]] + b[1..];
    }
  }

  lemma {:induction false} DigitsOrder(n: nat, m: nat, width: nat)
    requires n < Pow10(width) && m < Pow10(width)
    ensures Less(Digits(n, width), Digits(m, width)) <==> n < m
    ensures Digits(n, width) == Digits(m, width) <==> n == m
  {
    if width > 0 {
      var a, b := Digits(n / 10, width - 1), Digits(m / 10, width - 1);
      var c, d := "0123456789"[n % 10], "0123456789"[m % 10];
      DigitsOrder(n / 10, m / 10, width - 1);
      LessAppended(a, b, c, d);
      assert (a + [c])[..width - 1] == a && (b + [d])[..width - 1] == b;
      assert (a + [c])[width - 1] == c && (b + [d])[width - 1] == d;
    }
  }

  /** The number without its last `count` decimal digits. */
  function DropDigits(m: nat, count: nat): nat {
    if count == 0 then m else DropDigits(m / 10, count - 1)
  }

  /** The first digits of a wide number are the digits of what is left without the last ones. */
  lemma {:induction false} DigitsSplit(m: nat, width: nat, more: nat) returns (tail: string)
    requires m < Pow10(width + more)
    ensures DropDigits(m, more) < Pow10(width)
    ensures |tail| == more && Digits(m, width + more) == Digits(DropDigits(m, more), width) + tail
  {
    if more == 0 {
      tail := "";
      assert Digits(m, width) == Digits(m, width) + tail;
    } else {
      var rest := DigitsSplit(m / 10, width, more - 1);
      tail := rest + ["0123456789"[m % 10]];
    }
  }

  lemma WiderDigitsOrder(n: nat, width: nat, m: nat, more: nat)
    requires n < Pow10(width) && m < Pow10(width + more) && more > 0
    ensures Less(Digits(n, width), Digits(m, width + more)) <==> n <= DropDigits(m, more)
  {
    var tail := DigitsSplit(m, width, more);
    var head: nat := DropDigits(m, more);
    LessLonger(Digits(n, width), Digits(head, width), tail);
    DigitsOrder(n, head, width);
  }

  /** A binlog file name: base name, then the number padded to a width of at least `width`. */
  function Name(base: string, n: nat, width: nat): string
    requires n < Pow10(width)
  {
    base + Digits(n, width)
  }

  /** Names of equal width compare as strings exactly as their numbers do. */
  lemma NameOrderIsAgeOrder(base: string, n: nat, m: nat, width: nat)
    requires n < Pow10(width) && m < Pow10(width)
    ensures Less(Name(base, n, width), Name(base, m, width)) <==> n < m
  {
    LessCommonPrefix(base, Digits(n, width), Digits(m, width));
    DigitsOrder(n, m, width);
  }

  /** Once the counter outgrows its width, an older name still comes first exactly when its
      number is at most the newer number without its extra digits. */
  lemma WiderNameOrder(base: string, n: nat, width: nat, m: nat, more: nat)
    requires n < Pow10(width) && m < Pow10(width + more) && more > 0
    ensures Less(Name(base, n, width), Name(base, m, width + more)) <==> n <= DropDigits(m, more)
  {
    LessCommonPrefix(base, Digits(n, width), Digits(m, width + more));
    WiderDigitsOrder(n, width, m, more);
  }

  /** The file after number 999999 sorts before it, although it is the newer one. */
  lemma RolloverBreaksTheOrder(base: string)
    ensures 999_999 < Pow10(6) && 1_000_000 < Pow10(7)
    ensures !Less(Name(base, 999_999, 6), Name(base, 1_000_000, 7))
  {
    assert Pow10(3) == 1000 && Pow10(6) == 1000 * Pow10(3) && Pow10(7) == 10 * Pow10(6);
    WiderNameOrder(base, 999_999, 6, 1_000_000, 1);
  }

  // ----- coordinates -----

  /** Binlog coordinates: a file and a position in it. */
  datatype Pos = Pos(file: string, offset: int)

  predicate Before(a: Pos, b: Pos) {
    Less(a.file, b.file) || (a.file == b.file && a.offset < b.offset)
  }

  predicate AtMost(a: Pos, b: Pos) {
    a == b || Before(a, b)
  }

  /** `Before` is a strict total order. */
  lemma BeforeTotal(a: Pos, b: Pos)
    ensures a == b || Before(a, b) || Before(b, a)
    ensures !(Before(a, b) && Before(b, a)) && !Before(a, a)
  {
    LessTotal(a.file, b.file);
    LessIrreflexive(a.file);
    if Less(a.file, b.file) && Less(b.file, a.file) { LessTransitive(a.file, b.file, a.file); }
  }

  lemma BeforeTransitive(a: Pos, b: Pos, c: Pos)
    requires AtMost(a, b) && AtMost(b, c)
    ensures AtMost(a, c)
    ensures Before(a, b) || Before(b, c) ==> Before(a, c)
  {
    if Less(a.file, b.file) && Less(b.file, c.file) { LessTransitive(a.file, b.file, c.file); }
  }

  /** Positions that never go back. */
  ghost predicate NeverBack(ats: seq<Pos>) {
    forall i, j :: 0 <= i < j < |ats| ==> AtMost(ats[i], ats[j])
  }

  /** How many of the positions are before `p`. */
  function CountBefore(ats: seq<Pos>, p: Pos): (n: nat)
    ensures n <= |ats|
  {
    if ats == [] || Before(ats[|ats| - 1], p) then |ats| else CountBefore(ats[..|ats| - 1], p)
  }

  lemma {:induction false} CountSplits(ats: seq<Pos>, p: Pos)
    requires NeverBack(ats)
    ensures forall i :: 0 <= i < |ats| ==> (Before(ats[i], p) <==> i < CountBefore(ats, p))
  {
    if ats != [] {
      var front, last := ats[..|ats| - 1], ats[|ats| - 1];
      if Before(last, p) {
        forall i | 0 <= i < |ats| ensures Before(ats[i], p) {
          if i < |ats| - 1 { BeforeTransitive(ats[i], last, p); }
        }
      } else {
        CountSplits(front, p);
        forall i | 0 <= i < |ats| - 1 ensures Before(ats[i], p) <==> i < CountBefore(ats, p) {
          assert front[i] == ats[i];
        }
      }
    }
  }
}
