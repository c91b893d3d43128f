/** src/utils.rs: parsing an amount from its "<numerator>/<denominator>"
    text with errors tagged by the side that failed, `single` on an
    iterator, and `update` on an `Option`. The file's own copy of the
    `Fixed` arithmetic, `Sum` and `SumExtender` repeats src/common.rs
    line for line and is the `Common` module. */
module Utils {
  import opened Basics
  import opened Decimal
  import opened Common

  /** `FixedError<ParseIntError>`. */
  datatype FixedError =
    | MalformedSource(source: string)
    | ParseNumeratorError(numError: IntErrorKind)
    | ParseDenominatorError(denError: IntErrorKind)

  /** The position of the first `c` in `s`. */
  function FirstIndex(s: string, c: char): (r: Option<nat>)
    ensures r.None? <==> c !in s
    ensures r.Some? ==> r.value < |s| && s[r.value] == c && c !in s[..r.value]
    decreases |s|
  {
    if s == [] then None
    else if s[0] == c then Some(0)
    else match FirstIndex(s[1..], c)
      case None => None
      case Some(k) => assert s[..k + 1] == [s[0]] + s[1..][..k]; Some(k + 1)
  }

  /** `str::split_once`: the text before and after the first `c`. */
  function SplitOnce(s: string, c: char): (r: Option<(string, string)>)
    ensures r.None? <==> c !in s
    ensures r.Some? ==> s == r.value.0 + [c] + r.value.1 && c !in r.value.0
  {
    match FirstIndex(s, c)
    case None => None
    case Some(k) => assert s == s[..k] + [c] + s[k + 1..]; Some((s[..k], s[k + 1..]))
  }

  /** `Fixed::from_str`: split at the first '/', parse the numerator as an
      i32 and then the denominator as a u16. */
  function FromStr(s: string): (r: Result<Fixed, FixedError>)
    ensures r.Ok? ==> InI32(r.value.num)
  {
    match SplitOnce(s, '/')
    case None => Err(MalformedSource(s))
    case Some((num, den)) =>
      match ParseI32(num)
      case Err(e) => Err(ParseNumeratorError(e))
      case Ok(n) =>
        match ParseU16(den)
        case Err(e) => Err(ParseDenominatorError(e))
        case Ok(d) => Ok(Fixed(n, d))
  }

  /** `single`: the only item, when the iterator yields exactly one. */
  function Single<T>(xs: seq<T>): (r: Option<T>)
    ensures r.Some? <==> |xs| == 1
    ensures r.Some? ==> r.value == xs[0]
  {
    if xs == [] then None
    else if xs[1..] == [] then Some(xs[0])
    else None
  }

  /** `Update` for `Option`: the updater runs only on a present value. */
  function Update<T>(o: Option<T>, updater: T -> T): (r: Option<T>)
  {
    match o
    case None => None
    case Some(v) => Some(updater(v))
  }

  /* ---------------------------------------------------------------- */

  /** Splitting at a separator that the left part does not contain gives the two parts back. */
  lemma {:induction false} SplitAtFirst(a: string, c: char, b: string)
    requires c !in a
    ensures SplitOnce(a + [c] + b, c) == Some((a, b))
  {
    var s := a + [c] + b;
    var k := FirstIndex(s, c).value;
    assert s[|a|] == c;
    assert forall i | 0 <= i < |a| :: s[i] == a[i];
    assert k <= |a| by {
      assert forall j | 0 <= j < k :: s[..k][j] == s[j];
    }
    assert s[..|a|] == a && s[|a| + 1..] == b;
  }

  /** Without a '/' the whole input comes back as `MalformedSource`. */
  lemma ParseWithoutSlash(s: string)
    requires '/' !in s
    ensures FromStr(s) == Err(MalformedSource(s))
  {
  }

  /** The numerator is parsed first: a bad numerator is reported whatever
      follows the '/'. */
  lemma ParseNumeratorFirst(num: string, den: string)
    requires '/' !in num && ParseI32(num).Err?
    ensures FromStr(num + "/" + den) == Err(ParseNumeratorError(ParseI32(num).error))
  {
    SplitAtFirst(num, '/', den);
  }

  /** A good numerator with a bad denominator is a denominator error. */
  lemma ParseDenominatorOnly(num: string, den: string)
    requires '/' !in num && ParseI32(num).Ok? && ParseU16(den).Err?
    ensures FromStr(num + "/" + den) == Err(ParseDenominatorError(ParseU16(den).error))
  {
    SplitAtFirst(num, '/', den);
  }

  /** Anything after the first '/' belongs to the denominator, so a second
      '/' makes the denominator fail to parse. */
  lemma ParseSecondSlashIsDenominatorError(num: string, den: string)
    requires '/' !in num && ParseI32(num).Ok? && |den| > 0 && den[0] == '/'
    ensures FromStr(num + "/" + den) == Err(ParseDenominatorError(InvalidDigit))
  {
    SplitAtFirst(num, '/', den);
    AccumulateLeadingNonDigit(den, false, 0, U16_MAX);
    assert ParseU16(den) == Err(InvalidDigit);
  }

  /** Parsing the printed form "n/d" of an amount gives the same pair back. */
  lemma ParseDisplayRoundTrip(x: Fixed)
    requires InI32(x.num)
    ensures FromStr(ToStringRaw(x)) == Ok(x)
  {
    var num := IntToString(x.num);
    assert '/' !in num by {
      forall k | 0 <= k < |num| ensures num[k] != '/' { }
    }
    SplitAtFirst(num, '/', NatToString(x.den));
    I32RoundTrip(x.num);
    U16RoundTrip(x.den);
  }

  /** "-345/100" is the printed form of -345/100 and parses back to it. */
  lemma ParseExampleNegative()
    ensures ToStringRaw(Fixed(-345, 100)) == "-345/100"
    ensures FromStr("-345/100") == Ok(Fixed(-345, 100))
  {
    ParseDisplayRoundTrip(Fixed(-345, 100));
  }

  /** "ab/100" fails on the numerator side. */
  lemma ParseExampleBadNumerator()
    ensures FromStr("ab/100") == Err(ParseNumeratorError(InvalidDigit))
  {
    AccumulateLeadingNonDigit("ab", false, I32_MIN, I32_MAX);
    assert "ab/100" == "ab" + "/" + "100";
    ParseNumeratorFirst("ab", "100");
  }

  /** "100/cd" fails on the denominator side. */
  lemma ParseExampleBadDenominator()
    ensures FromStr("100/cd") == Err(ParseDenominatorError(InvalidDigit))
  {
    AccumulateLeadingNonDigit("cd", false, 0, U16_MAX);
    assert IntToString(100) == "100" by {
      assert NatToString(1) == "1";
      assert NatToString(10) == "10";
    }
    I32RoundTrip(100);
    assert "100/cd" == "100" + "/" + "cd";
    ParseDenominatorOnly("100", "cd");
  }

  /** `==` holds between n/d and (n·k)/(d·k) for every k >= 1. */
  lemma EqScaled(n: int, d: U16, k: int)
    requires d > 0 && k >= 1 && d * k <= U16_MAX
    ensures Eq(Fixed(n, d), Fixed(n * k, d * k))
  {
    if k > 1 {
      var scaled := d * k;
      assert scaled / d == k by { DivOfMultiple(d, k); }
      var (x, y) := EqualizeFractions(Fixed(n, d), Fixed(n * k, scaled));
      assert x.num == n * (scaled / d);
    }
  }

  /** A multiple of d divided by d is the factor. */
  lemma DivOfMultiple(d: int, k: int)
    requires d > 0 && k >= 0
    ensures (d * k) / d == k
  {
    var q, r := (d * k) / d, (d * k) % d;
    assert d * (k - q) == r;
    if k - q >= 1 {
      MulAtLeast(d, k - q);
    } else if k - q <= -1 {
      MulAtLeast(d, q - k);
    }
  }

  lemma MulAtLeast(d: int, m: int)
    requires d > 0 && m >= 1
    ensures d * m >= d
  {
  }

  /** `single` is `Some` of the one element of a one-element sequence, and
      `None` for an empty sequence or for two or more elements. */
  lemma SingleCases<T>(xs: seq<T>)
    ensures xs == [] ==> Single(xs) == None
    ensures |xs| >= 2 ==> Single(xs) == None
    ensures |xs| == 1 ==> Single(xs) == Some(xs[0])
  {
  }

  /** `update` leaves `None` alone and applies the updater to a present value once. */
  lemma UpdateLaws<T>(o: Option<T>, f: T -> T, g: T -> T)
    ensures o.None? ==> Update(o, f) == None
    ensures o.Some? ==> Update(o, f) == Some(f(o.value))
    ensures Update(Update(o, f), g) == Update(o, x => g(f(x)))
  {
  }
}
