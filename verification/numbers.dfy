/**
 * Width and height values. The scraper reads them with `Number(...)` from
 * strings of decimal digits with an optional fractional part, keeps them in a
 * `Set<number>`, sorts them with `(a, b) => a - b` and prints them back with
 * template literals and `join`. A value here is an exact decimal, written
 * canonically (no trailing zero in the fractional digits), so that equality
 * of values is numeric equality and `Less` is the numeric order (proved below
 * against the real-valued meaning).
 */
module Numbers {
  import opened Text

  datatype Decimal = Decimal(whole: nat, frac: string)

  predicate Canonical(d: Decimal) {
    AllDigits(d.frac) && (d.frac == [] || d.frac[|d.frac| - 1] != '0')
  }

  type Dim = d: Decimal | Canonical(d) witness Decimal(0, "")

  function FromNat(n: nat): Dim {
    Decimal(n, "")
  }

  /** `values[0] ?? 0` */
  function FirstOrZero(values: seq<Dim>): Dim {
    if values == [] then FromNat(0) else values[0]
  }

  /** `values[values.length - 1] ?? 0` */
  function LastOrZero(values: seq<Dim>): Dim {
    if values == [] then FromNat(0) else values[|values| - 1]
  }

  function StripTrailingZeros(s: string): (r: string)
    requires AllDigits(s)
    ensures AllDigits(r) && (r == [] || r[|r| - 1] != '0')
    ensures |r| <= |s| && r == s[..|r|]
    ensures forall i :: |r| <= i < |s| ==> s[i] == '0'
    decreases |s|
  {
    if s != [] && s[|s| - 1] == '0' then StripTrailingZeros(s[..|s| - 1]) else s
  }

  /** `Number("<w>.<f>")` (or `Number("<w>")` when `f` is empty). */
  function ParseDecimal(w: string, f: string): Dim
    requires AllDigits(w) && AllDigits(f)
  {
    Decimal(DigitsValue(w), StripTrailingZeros(f))
  }

  // ---------------------------------------------------------------------------
  // Meaning

  function FracValue(s: string): real
    requires AllDigits(s)
    decreases |s|
  {
    if s == [] then 0.0 else (DigitValue(s[0]) as real + FracValue(s[1..])) / 10.0
  }

  /** The number a value denotes. */
  function Value(d: Dim): real {
    d.whole as real + FracValue(d.frac)
  }

  lemma {:induction false} FracValueBounds(s: string)
    requires AllDigits(s)
    ensures 0.0 <= FracValue(s) < 1.0
    decreases |s|
  {
    if s != [] {
      FracValueBounds(s[1..]);
    }
  }

  lemma {:induction false} FracValuePositive(s: string)
    requires AllDigits(s) && s != [] && s[|s| - 1] != '0'
    ensures FracValue(s) > 0.0
    decreases |s|
  {
    FracValueBounds(s[1..]);
    if s[0] == '0' {
      FracValuePositive(s[1..]);
    }
  }

  /** Trailing zeros do not change the value: `Number("12.50") === 12.5`. */
  lemma {:induction false} FracValueTrailingZeros(s: string)
    requires AllDigits(s)
    ensures FracValue(StripTrailingZeros(s)) == FracValue(s)
    decreases |s|
  {
    if s != [] && s[|s| - 1] == '0' {
      var t := s[..|s| - 1];
      FracValueTrailingZeros(t);
      FracValueAppendZero(t);
      assert t + ['0'] == s;
    }
  }

  lemma {:induction false} FracValueAppendZero(s: string)
    requires AllDigits(s)
    ensures FracValue(s + ['0']) == FracValue(s)
    decreases |s|
  {
    if s != [] {
      assert (s + ['0'])[1..] == s[1..] + ['0'];
      FracValueAppendZero(s[1..]);
    }
  }

  lemma ParseDecimalValue(w: string, f: string)
    requires AllDigits(w) && AllDigits(f)
    ensures Value(ParseDecimal(w, f)) == DigitsValue(w) as real + FracValue(f)
  {
    FracValueTrailingZeros(f);
  }

  // ---------------------------------------------------------------------------
  // Order

  /** Lexicographic order on fractional digits. */
  predicate FracLess(a: string, b: string)
    decreases |a|
  {
    if a == [] then b != []
    else if b == [] then false
    else a[0] < b[0] || (a[0] == b[0] && FracLess(a[1..], b[1..]))
  }

  /** `a - b < 0` for the numbers the two values denote. */
  predicate Less(a: Dim, b: Dim) {
    a.whole < b.whole || (a.whole == b.whole && FracLess(a.frac, b.frac))
  }

  lemma {:induction false} FracLessMeansSmaller(a: string, b: string)
    requires AllDigits(a) && AllDigits(b)
    requires b == [] || b[|b| - 1] != '0'
    requires FracLess(a, b)
    ensures FracValue(a) < FracValue(b)
    decreases |a|
  {
    if a == [] {
      FracValuePositive(b);
    } else {
      FracValueBounds(a[1..]);
      FracValueBounds(b[1..]);
      if a[0] == b[0] && FracLess(a[1..], b[1..]) {
        FracLessMeansSmaller(a[1..], b[1..]);
      }
    }
  }

  lemma {:induction false} FracLessTotal(a: string, b: string)
    requires a != b
    ensures FracLess(a, b) || FracLess(b, a)
    decreases |a|
  {
    if a != [] && b != [] && a[0] == b[0] {
      assert a == [a[0]] + a[1..] && b == [b[0]] + b[1..];
      FracLessTotal(a[1..], b[1..]);
    }
  }

  lemma {:induction false} FracLessIrreflexive(a: string)
    ensures !FracLess(a, a)
    decreases |a|
  {
    if a != [] {
      FracLessIrreflexive(a[1..]);
    }
  }

  /** `Less` is exactly the numeric order of the denoted values. */
  lemma LessIsNumeric(a: Dim, b: Dim)
    ensures Less(a, b) <==> Value(a) < Value(b)
    ensures a == b <==> Value(a) == Value(b)
  {
    FracValueBounds(a.frac);
    FracValueBounds(b.frac);
    if a.whole == b.whole {
      if a.frac == b.frac {
        FracLessIrreflexive(a.frac);
      } else {
        FracLessTotal(a.frac, b.frac);
        if FracLess(a.frac, b.frac) {
          FracLessMeansSmaller(a.frac, b.frac);
        } else {
          FracLessMeansSmaller(b.frac, a.frac);
        }
      }
    }
  }

  lemma LessIrreflexive(a: Dim)
    ensures !Less(a, a)
  {
    LessIsNumeric(a, a);
  }

  lemma LessTransitive(a: Dim, b: Dim, c: Dim)
    requires Less(a, b) && Less(b, c)
    ensures Less(a, c)
  {
    LessIsNumeric(a, b);
    LessIsNumeric(b, c);
    LessIsNumeric(a, c);
  }

  lemma LessTotal(a: Dim, b: Dim)
    requires a != b
    ensures Less(a, b) || Less(b, a)
  {
    LessIsNumeric(a, b);
    LessIsNumeric(b, a);
  }

  // ---------------------------------------------------------------------------
  // Printing: `String(n)` / `${n}` for these values

  function ToString(d: Dim): (r: string)
    ensures |r| >= 1
  {
    NatToString(d.whole) + (if d.frac == [] then "" else "." + d.frac)
  }

  /** Reads back what `ToString` prints. */
  function ParseBack(s: string): Option<Dim> {
    if '.' in s then
      var i := IndexOf(s, '.');
      var w, f := s[..i], s[i + 1..];
      if w != [] && AllDigits(w) && AllDigits(f) && f != [] && f[|f| - 1] != '0'
      then Some(Decimal(DigitsValue(w), f)) else None
    else if s != [] && AllDigits(s) then Some(Decimal(DigitsValue(s), "")) else None
  }

  function IndexOf(s: string, c: char): (i: nat)
    requires c in s
    ensures i < |s| && s[i] == c && c !in s[..i]
  {
    if s[0] == c then 0 else 1 + IndexOf(s[1..], c)
  }

  /** Printing loses nothing: distinct values print differently. */
  lemma ToStringRoundTrip(d: Dim)
    ensures ParseBack(ToString(d)) == Some(d)
  {
    var w := NatToString(d.whole);
    DigitsOfNat(d.whole);
    if d.frac == [] {
      assert ToString(d) == w;
      ParseBackWhole(w);
    } else {
      assert ToString(d) == w + ['.'] + d.frac;
      ParseBackPoint(w, d.frac);
    }
  }

  /** Digits alone read back as a whole number. */
  lemma ParseBackWhole(w: string)
    requires w != [] && AllDigits(w)
    ensures ParseBack(w) == Some(Decimal(DigitsValue(w), ""))
  {
    DigitsNoPoint(w);
  }

  lemma DigitsNoPoint(w: string)
    requires AllDigits(w)
    ensures '.' !in w
  {
    forall k | 0 <= k < |w| ensures w[k] != '.' {
      assert IsDigit(w[k]);
    }
  }

  /** Digits, a point and canonical fraction digits read back as that decimal. */
  lemma ParseBackPoint(w: string, f: string)
    requires w != [] && AllDigits(w) && AllDigits(f) && f != [] && f[|f| - 1] != '0'
    ensures ParseBack(w + ['.'] + f) == Some(Decimal(DigitsValue(w), f))
  {
    var s := w + ['.'] + f;
    DigitsNoPoint(w);
    assert s[|w|] == '.';
    var i := IndexOf(s, '.');
    assert s[..|w|] == w;
    assert s[..i] == w && s[i + 1..] == f;
  }

  // ---------------------------------------------------------------------------
  // Ascending sequences without repetition: what `[...set].sort((a, b) => a - b)` yields

  predicate StrictlyAscending(s: seq<Dim>) {
    forall i, j :: 0 <= i < j < |s| ==> Less(s[i], s[j])
  }

  /** Adds `x` to an ascending sequence (nothing changes when it is already there). */
  function Insert(s: seq<Dim>, x: Dim): (r: seq<Dim>)
    requires StrictlyAscending(s)
    ensures StrictlyAscending(r)
    ensures forall y :: y in r <==> y in s || y == x
    decreases |s|
  {
    if s == [] then [x]
    else if x == s[0] then s
    else if Less(x, s[0]) then
      assert StrictlyAscending([x] + s) by {
        forall j | 0 < j < |s| { LessTransitive(x, s[0], s[j]); }
      }
      [x] + s
    else
      var rest := Insert(s[1..], x);
      assert StrictlyAscending([s[0]] + rest) by {
        LessTotal(x, s[0]);
        forall j | 0 <= j < |rest| ensures Less(s[0], rest[j]) {
          assert rest[j] in s[1..] || rest[j] == x;
        }
      }
      [s[0]] + rest
  }

  /** `[...new Set(xs)].sort((a, b) => a - b)`: the values of `xs`, ascending, once each. */
  function Ascending(xs: seq<Dim>): (r: seq<Dim>)
    ensures StrictlyAscending(r)
    ensures forall y :: y in r <==> y in xs
    decreases |xs|
  {
    if xs == [] then []
    else
      assert xs == xs[..|xs| - 1] + [xs[|xs| - 1]];
      Insert(Ascending(xs[..|xs| - 1]), xs[|xs| - 1])
  }

  /** The first and last of an ascending list are its least and greatest values. */
  lemma AscendingEnds(xs: seq<Dim>)
    requires StrictlyAscending(xs) && xs != []
    ensures FirstOrZero(xs) in xs && LastOrZero(xs) in xs
    ensures forall x :: x in xs ==> (x == FirstOrZero(xs) || Less(FirstOrZero(xs), x))
    ensures forall x :: x in xs ==> (x == LastOrZero(xs) || Less(x, LastOrZero(xs)))
  {
    forall x | x in xs ensures (x == FirstOrZero(xs) || Less(FirstOrZero(xs), x)) && (x == LastOrZero(xs) || Less(x, LastOrZero(xs))) {
      var i :| 0 <= i < |xs| && xs[i] == x;
      if 0 < i { assert Less(xs[0], xs[i]); }
      if i < |xs| - 1 { assert Less(xs[i], xs[|xs| - 1]); }
    }
  }

  /** The step of a loop that adds one value at a time to the set. */
  lemma AscendingSnoc(xs: seq<Dim>, x: Dim)
    ensures Ascending(xs + [x]) == Insert(Ascending(xs), x)
  {
    assert (xs + [x])[..|xs|] == xs;
  }

  /** A finite set has one ascending enumeration: the sort order is determined by the values. */
  lemma {:induction false} AscendingUnique(a: seq<Dim>, b: seq<Dim>)
    requires StrictlyAscending(a) && StrictlyAscending(b)
    requires forall x :: x in a <==> x in b
    ensures a == b
    decreases |a|
  {
    HeadIsMember(b);
    if a != [] {
      assert a[0] in b;
      assert b != [];
      if a[0] != b[0] {
        assert b[0] in a;
        var i :| 0 <= i < |a| && a[i] == b[0];
        var j :| 0 <= j < |b| && b[j] == a[0];
        LessTransitive(a[0], b[0], a[0]);
        LessIrreflexive(a[0]);
        assert false;
      }
      forall x ensures x in a[1..] <==> x in b[1..] {
        if x in a[1..] {
          var i :| 0 <= i < |a[1..]| && a[1..][i] == x;
          assert Less(a[0], x);
          LessIrreflexive(x);
          assert x in b;
        }
        if x in b[1..] {
          var i :| 0 <= i < |b[1..]| && b[1..][i] == x;
          assert Less(b[0], x);
          LessIrreflexive(x);
          assert x in a;
        }
      }
      AscendingUnique(a[1..], b[1..]);
      assert a == [a[0]] + a[1..] && b == [b[0]] + b[1..];
    }
  }
}
