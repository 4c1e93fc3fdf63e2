/** Segment file names: `wal-`, the id in 20 digits, `.seg`. */
module SegmentNames {
  import opened Bytes

  const PREFIX := "wal-"
  const SUFFIX := ".seg"
  const DIGITS := "0123456789"

  /** 10 to the `width`. */
  function Pow10(width: nat): (r: nat)
    ensures r >= 1
  {
    if width == 0 then 1 else 10 * Pow10(width - 1)
  }

  /** The last `width` decimal digits of `n`, zeros in front. */
  function Padded(n: nat, width: nat): (s: string)
    ensures |s| == width
  {
    if width == 0 then "" else Padded(n / 10, width - 1) + [DIGITS[n % 10]]
  }

  predicate IsDigit(c: char) {
    '0' <= c <= '9'
  }

  function DigitOf(c: char): nat
    requires IsDigit(c)
  {
    c as int - '0' as int
  }

  function Value(s: string): nat
    requires forall c :: c in s ==> IsDigit(c)
  {
    if s == "" then 0
    else
      assert s[|s| - 1] in s;
      Value(s[..|s| - 1]) * 10 + DigitOf(s[|s| - 1])
  }

  /** Parsing as an unsigned 64-bit number, which allows a plus sign. */
  function ParseU64(s: string): Option<nat> {
    var digits := if s != "" && s[0] == '+' then s[1..] else s;
    if digits == "" || exists c :: c in digits && !IsDigit(c) then None
    else if Value(digits) < U64 then Some(Value(digits)) else None
  }

  function Name(id: nat): string {
    PREFIX + Padded(id, 20) + SUFFIX
  }

  /** The id in a file name; None is the error for a name of another form. */
  function IdOf(name: string): Option<nat> {
    if |name| < |PREFIX| + |SUFFIX| || name[..|PREFIX|] != PREFIX || name[|name| - |SUFFIX|..] != SUFFIX then None
    else ParseU64(name[|PREFIX|..|name| - |SUFFIX|])
  }

  lemma {:induction false} PaddedValue(n: nat, width: nat)
    requires n < Pow10(width)
    ensures forall c :: c in Padded(n, width) ==> IsDigit(c)
    ensures Value(Padded(n, width)) == n
  {
    if width > 0 {
      PaddedValue(n / 10, width - 1);
      var s := Padded(n, width);
      assert s[..width - 1] == Padded(n / 10, width - 1);
      DigitValue(n % 10);
    }
  }

  lemma DigitValue(d: nat)
    requires d < 10
    ensures IsDigit(DIGITS[d]) && DigitOf(DIGITS[d]) == d
  {
    assert d == 0 || d == 1 || d == 2 || d == 3 || d == 4 || d == 5 || d == 6 || d == 7 || d == 8 || d == 9;
  }

  lemma U64Fits()
    ensures U64 <= Pow10(20)
  {
    assert Pow10(5) == 100000;
    assert Pow10(10) == 100000 * Pow10(5);
    assert Pow10(15) == 100000 * Pow10(10);
    assert Pow10(20) == 100000 * Pow10(15);
  }

  /** The id of every segment comes back from its name. */
  lemma NameRoundTrip(id: nat)
    requires id < U64
    ensures IdOf(Name(id)) == Some(id)
  {
    U64Fits();
    PaddedValue(id, 20);
    var name := Name(id);
    assert name[|PREFIX|..|name| - |SUFFIX|] == Padded(id, 20);
    assert IsDigit(Padded(id, 20)[0]);
  }

  /** A number in decimal digits, at least one, after an optional plus sign. */
  ghost predicate Numeral(s: string, id: nat) {
    var digits := if s != "" && s[0] == '+' then s[1..] else s;
    digits != "" && (forall c :: c in digits ==> IsDigit(c)) && Value(digits) == id < U64
  }

  /** A name has an id exactly if it is the numeral of that id between prefix and suffix. */
  lemma NamesAreFramed(name: string, id: nat)
    ensures IdOf(name) == Some(id) <==> exists s :: Numeral(s, id) && name == PREFIX + s + SUFFIX
  {
    if IdOf(name) == Some(id) {
      var s := name[|PREFIX|..|name| - |SUFFIX|];
      assert name == name[..|PREFIX|] + s + name[|name| - |SUFFIX|..];
      assert Numeral(s, id);
    }
    if s :| Numeral(s, id) && name == PREFIX + s + SUFFIX {
      assert name[|PREFIX|..|name| - |SUFFIX|] == s;
      assert name[..|PREFIX|] == PREFIX && name[|name| - |SUFFIX|..] == SUFFIX;
    }
  }

  lemma {:induction false} ZeroPadded(width: nat)
    ensures Padded(0, width) == seq(width, i => '0')
  {
    if width > 0 {
      ZeroPadded(width - 1);
    }
  }

  /** The documented form of a name. */
  lemma NameLayout()
    ensures Name(258) == "wal-" + ("00000000000000000" + "258") + ".seg"
  {
    ZeroPadded(17);
    assert Padded(0, 17) == "00000000000000000";
    assert Padded(2, 18) == Padded(0, 17) + "2";
    assert Padded(25, 19) == Padded(2, 18) + "5";
    assert Padded(258, 20) == Padded(25, 19) + "8" == Padded(0, 17) + "258";
  }

  // ---- Order ----

  /** Lexicographic order, as a directory listing sorts. */
  predicate Before(s: string, t: string) {
    if t == "" then false
    else if s == "" then true
    else s[0] < t[0] || (s[0] == t[0] && Before(s[1..], t[1..]))
  }

  lemma {:induction false} BeforeConcat(s: string, t: string, u: string, v: string)
    requires |s| == |t|
    ensures Before(s + u, t + v) <==> Before(s, t) || (s == t && Before(u, v))
  {
    if s == "" {
      assert s + u == u && t + v == v;
    } else {
      assert (s + u)[1..] == s[1..] + u && (t + v)[1..] == t[1..] + v;
      assert s == t <==> s[0] == t[0] && s[1..] == t[1..] by {
        assert s == [s[0]] + s[1..] && t == [t[0]] + t[1..];
      }
      BeforeConcat(s[1..], t[1..], u, v);
    }
  }

  lemma {:induction false} PaddedOrder(a: nat, b: nat, width: nat)
    requires a < Pow10(width) && b < Pow10(width)
    ensures Before(Padded(a, width), Padded(b, width)) <==> a < b
    ensures Padded(a, width) == Padded(b, width) <==> a == b
  {
    if width > 0 {
      PaddedOrder(a / 10, b / 10, width - 1);
      PaddedValue(a, width);
      PaddedValue(b, width);
      DigitValue(a % 10);
      DigitValue(b % 10);
      var x, y := [DIGITS[a % 10]], [DIGITS[b % 10]];
      BeforeConcat(Padded(a / 10, width - 1), Padded(b / 10, width - 1), x, y);
      assert Before(x, y) <==> a % 10 < b % 10;
    }
  }

  lemma NeverBeforeItself(s: string)
    ensures !Before(s, s)
  {}

  /** Sorting the names sorts the ids. */
  lemma NamesSortLikeIds(a: nat, b: nat)
    requires a < U64 && b < U64
    ensures Before(Name(a), Name(b)) <==> a < b
  {
    U64Fits();
    PaddedOrder(a, b, 20);
    Framed(Padded(a, 20), Padded(b, 20));
  }

  lemma Framed(x: string, y: string)
    requires |x| == |y|
    ensures Before(PREFIX + x + SUFFIX, PREFIX + y + SUFFIX) <==> Before(x, y)
  {
    BeforeConcat(x, y, SUFFIX, SUFFIX);
    NeverBeforeItself(SUFFIX);
    BeforeConcat(PREFIX, PREFIX, x + SUFFIX, y + SUFFIX);
    NeverBeforeItself(PREFIX);
    assert PREFIX + x + SUFFIX == PREFIX + (x + SUFFIX);
    assert PREFIX + y + SUFFIX == PREFIX + (y + SUFFIX);
  }
}
