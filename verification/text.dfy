/**
 * String helpers shared by the scraper model: the JavaScript notions of
 * whitespace, trim, ASCII case folding, substring search, split and join,
 * decimal digits, and first-occurrence de-duplication (`[...new Set(xs)]`).
 */
module Text {

  datatype Option<+T> = None | Some(value: T) {
    function GetOr(default: T): T {
      match this
      case Some(v) => v
      case None => default
    }

    /** The value as a sequence of at most one element. */
    function ToSeq(): (r: seq<T>)
      ensures |r| <= 1
    {
      match this
      case Some(v) => [v]
      case None => []
    }
  }

  // ---------------------------------------------------------------------------
  // Characters

  /** JavaScript WhiteSpace and LineTerminator code points (what `trim` and `\s` remove). */
  predicate IsSpace(c: char) {
    || c == ' ' || c == '\t' || c == '\n' || c == '\r'
    || c == '\U{B}' || c == '\U{C}' || c == '\U{A0}' || c == '\U{FEFF}'
    || c == '\U{1680}' || ('\U{2000}' <= c <= '\U{200A}')
    || c == '\U{2028}' || c == '\U{2029}' || c == '\U{202F}' || c == '\U{205F}' || c == '\U{3000}'
  }

  /** The characters that `.` in a JavaScript regular expression does not match. */
  predicate IsLineTerminator(c: char) {
    c == '\n' || c == '\r' || c == '\U{2028}' || c == '\U{2029}'
  }

  predicate IsDigit(c: char) { '0' <= c <= '9' }
  predicate IsUpper(c: char) { 'A' <= c <= 'Z' }
  predicate IsLower(c: char) { 'a' <= c <= 'z' }
  predicate IsAlnum(c: char) { IsDigit(c) || IsUpper(c) || IsLower(c) }

  function LowerChar(c: char): (r: char)
    ensures IsUpper(c) ==> IsLower(r)
    ensures !IsUpper(c) ==> r == c
  {
    if IsUpper(c) then c - 'A' + 'a' else c
  }

  function UpperChar(c: char): (r: char)
    ensures IsLower(c) ==> IsUpper(r)
    ensures !IsLower(c) ==> r == c
  {
    if IsLower(c) then c - 'a' + 'A' else c
  }

  /** ASCII lower-casing of a string. */
  function Lower(s: string): (r: string)
    ensures |r| == |s|
    ensures forall i :: 0 <= i < |s| ==> r[i] == LowerChar(s[i])
  {
    seq(|s|, i requires 0 <= i < |s| => LowerChar(s[i]))
  }

  /** ASCII upper-casing of a string. */
  function Upper(s: string): (r: string)
    ensures |r| == |s|
    ensures forall i :: 0 <= i < |s| ==> r[i] == UpperChar(s[i])
  {
    seq(|s|, i requires 0 <= i < |s| => UpperChar(s[i]))
  }

  predicate AllDigits(s: string) { forall i :: 0 <= i < |s| ==> IsDigit(s[i]) }
  predicate AllSpace(s: string) { forall i :: 0 <= i < |s| ==> IsSpace(s[i]) }

  // ---------------------------------------------------------------------------
  // Prefixes, suffixes, substrings

  predicate StartsWith(s: string, p: string) { |p| <= |s| && s[..|p|] == p }
  predicate EndsWith(s: string, p: string) { |p| <= |s| && s[|s| - |p|..] == p }

  lemma AppendAssoc<T>(a: seq<T>, b: seq<T>, c: seq<T>)
    ensures a + (b + c) == a + b + c
  {
  }

  lemma AppendEmpty<T>(a: seq<T>)
    ensures a + [] == a
  {
  }

  lemma PrefixSnoc<T>(s: seq<T>, n: nat)
    requires n < |s|
    ensures s[..n + 1] == s[..n] + [s[n]]
  {
  }

  lemma SliceOfConcat(a: string, b: string, c: string)
    ensures (a + b + c)[|a|..|a| + |b|] == b
  {
    assert forall k :: 0 <= k < |b| ==> (a + b + c)[|a| + k] == b[k];
  }

  /** `s.includes(sub)` */
  predicate Contains(s: string, sub: string)
    decreases |s|
  {
    StartsWith(s, sub) || (|s| > 0 && Contains(s[1..], sub))
  }

  lemma {:induction false} ContainsAt(s: string, sub: string, i: nat)
    requires i + |sub| <= |s| && s[i..i + |sub|] == sub
    ensures Contains(s, sub)
    decreases i
  {
    if i > 0 {
      assert s[1..][i - 1..i - 1 + |sub|] == sub;
      ContainsAt(s[1..], sub, i - 1);
    }
  }

  lemma {:induction false} ContainsInMiddle(a: string, sub: string, b: string)
    ensures Contains(a + sub + b, sub)
  {
    var s := a + sub + b;
    assert s[|a|..|a| + |sub|] == sub;
    ContainsAt(s, sub, |a|);
  }

  lemma ConcatHasMember(parts: seq<string>, p: string)
    requires p in parts
    ensures Contains(Concat(parts), p)
  {
    var k :| 0 <= k < |parts| && parts[k] == p;
    ConcatHasPiece(parts, k);
  }

  /** Where a contained string occurs. */
  lemma {:induction false} ContainsIndex(s: string, sub: string) returns (i: nat)
    requires Contains(s, sub)
    ensures i + |sub| <= |s| && s[i..i + |sub|] == sub
    decreases |s|
  {
    if StartsWith(s, sub) {
      i := 0;
    } else {
      var j := ContainsIndex(s[1..], sub);
      assert s[1..][j..j + |sub|] == s[j + 1..j + 1 + |sub|];
      i := j + 1;
    }
  }

  /** What a part contains, the whole contains. */
  lemma ContainsLift(a: string, t: string, b: string, u: string)
    requires Contains(t, u)
    ensures Contains(a + t + b, u)
  {
    var i := ContainsIndex(t, u);
    var s := a + t + b;
    assert s[|a| + i..|a| + i + |u|] == t[i..i + |u|];
    ContainsAt(s, u, |a| + i);
  }

  lemma ContainsLiftEnd(a: string, t: string, u: string)
    requires Contains(t, u)
    ensures Contains(a + t, u)
  {
    ContainsLift(a, t, "", u);
    assert a + t + "" == a + t;
  }

  lemma ContainsLiftStart(t: string, b: string, u: string)
    requires Contains(t, u)
    ensures Contains(t + b, u)
  {
    ContainsLift("", t, b, u);
    assert "" + t + b == t + b;
  }

  /** A one-character needle is contained exactly when the character occurs. */
  lemma {:induction false} ContainsChar(s: string, c: char)
    ensures Contains(s, [c]) <==> c in s
    decreases |s|
  {
    if |s| > 0 {
      ContainsChar(s[1..], c);
      assert s == [s[0]] + s[1..];
    }
  }

  // ---------------------------------------------------------------------------
  // Trimming

  function TrimStart(s: string): (r: string)
    ensures |r| <= |s| && r == s[|s| - |r|..]
    ensures AllSpace(s[..|s| - |r|])
    ensures r == [] || !IsSpace(r[0])
    decreases |s|
  {
    if s != [] && IsSpace(s[0]) then TrimStart(s[1..]) else s
  }

  function TrimEnd(s: string): (r: string)
    ensures |r| <= |s| && r == s[..|r|]
    ensures AllSpace(s[|r|..])
    ensures r == [] || !IsSpace(r[|r| - 1])
    decreases |s|
  {
    if s != [] && IsSpace(s[|s| - 1]) then
      var r := TrimEnd(s[..|s| - 1]);
      assert s[|r|..] == s[..|s| - 1][|r|..] + [s[|s| - 1]];
      r
    else s
  }

  /** `TrimEnd` removes exactly the trailing run of whitespace. */
  lemma {:induction false} TrimEndExact(s: string, n: nat)
    requires n <= |s| && AllSpace(s[n..]) && (n == 0 || !IsSpace(s[n - 1]))
    ensures TrimEnd(s) == s[..n]
    decreases |s| - n
  {
    if |s| > n {
      assert IsSpace(s[n..][|s| - 1 - n]);
      var t := s[..|s| - 1];
      assert forall k :: 0 <= k < |t[n..]| ==> t[n..][k] == s[n..][k];
      TrimEndExact(t, n);
      assert t[..n] == s[..n];
    } else {
      assert s[..n] == s;
    }
  }

  predicate IsTrimmed(s: string) {
    s == [] || (!IsSpace(s[0]) && !IsSpace(s[|s| - 1]))
  }

  /** `String.prototype.trim` */
  function Trim(s: string): (r: string)
    ensures IsTrimmed(r)
    ensures |r| <= |s|
  {
    var t := TrimStart(s);
    var r := TrimEnd(t);
    assert r == [] || !IsSpace(r[0]) by {
      if r != [] { assert r[0] == t[0]; }
    }
    r
  }

  /** `trim` removes a whitespace prefix and a whitespace suffix and nothing else. */
  lemma TrimParts(s: string) returns (i: nat)
    ensures i + |Trim(s)| <= |s|
    ensures Trim(s) == s[i..i + |Trim(s)|]
    ensures AllSpace(s[..i]) && AllSpace(s[i + |Trim(s)|..])
  {
    var t := TrimStart(s);
    var r := TrimEnd(t);
    i := |s| - |t|;
    assert r == s[i..i + |r|];
    assert s[i + |r|..] == t[|r|..];
  }

  lemma {:induction false} TrimOfTrimmed(s: string)
    requires IsTrimmed(s)
    ensures Trim(s) == s
  {
    assert TrimStart(s) == s;
    assert TrimEnd(s) == s;
  }

  /** Only whitespace characters are ever removed, and never a character in the middle. */
  lemma {:induction false} TrimKeepsNonSpace(s: string)
    requires s != [] && !IsSpace(s[0]) && !IsSpace(s[|s| - 1])
    ensures Trim(s) == s
  {
    TrimOfTrimmed(s);
  }

  lemma {:induction false} TrimStartSnoc(s: string, c: char)
    requires IsSpace(c)
    ensures TrimStart(s + [c]) == if AllSpace(s) then [] else TrimStart(s) + [c]
    decreases |s|
  {
    if s == [] {
      assert TrimStart([c]) == TrimStart([c][1..]);
    } else {
      assert (s + [c])[0] == s[0] && (s + [c])[1..] == s[1..] + [c];
      if IsSpace(s[0]) {
        TrimStartSnoc(s[1..], c);
        assert AllSpace(s) <==> AllSpace(s[1..]) by {
          if AllSpace(s[1..]) {
            assert forall i :: 1 <= i < |s| ==> s[i] == s[1..][i - 1];
          }
        }
      } else {
        assert !AllSpace(s);
      }
    }
  }

  /** Trailing whitespace added to a string does not change what `trim` returns. */
  lemma TrimSnocSpace(s: string, c: char)
    requires IsSpace(c)
    ensures Trim(s + [c]) == Trim(s)
  {
    TrimStartSnoc(s, c);
    if AllSpace(s) {
      TrimAllSpace(s);
    } else {
      var t := TrimStart(s);
      assert (t + [c])[..|t|] == t;
    }
  }

  lemma {:induction false} TrimAllSpace(s: string)
    requires AllSpace(s)
    ensures Trim(s) == []
  {
    assert TrimStart(s) == [];
  }

  // ---------------------------------------------------------------------------
  // Joining and splitting

  /** `parts.join(sep)` */
  function Join(parts: seq<string>, sep: string): string
    decreases |parts|
  {
    if |parts| == 0 then ""
    else if |parts| == 1 then parts[0]
    else parts[0] + sep + Join(parts[1..], sep)
  }

  lemma {:induction false} JoinCons(p: string, parts: seq<string>, sep: string)
    requires |parts| > 0
    ensures Join([p] + parts, sep) == p + sep + Join(parts, sep)
  {
    assert ([p] + parts)[1..] == parts;
  }

  lemma {:induction false} JoinSnoc(parts: seq<string>, p: string, sep: string)
    requires |parts| > 0
    ensures Join(parts + [p], sep) == Join(parts, sep) + sep + p
    decreases |parts|
  {
    if |parts| == 1 {
      assert parts + [p] == [parts[0]] + [p];
    } else {
      assert (parts + [p])[1..] == parts[1..] + [p];
      JoinSnoc(parts[1..], p, sep);
    }
  }

  lemma {:induction false} JoinNoChar(parts: seq<string>, sep: string, c: char)
    requires forall i :: 0 <= i < |parts| ==> c !in parts[i]
    requires c !in sep
    ensures c !in Join(parts, sep)
    decreases |parts|
  {
    if |parts| > 1 {
      JoinNoChar(parts[1..], sep, c);
    }
  }

  /** `parts.join("")` */
  function Concat(parts: seq<string>): string {
    Join(parts, "")
  }

  lemma {:induction false} ConcatAppend(a: seq<string>, b: seq<string>)
    ensures Concat(a + b) == Concat(a) + Concat(b)
    decreases |a|
  {
    if |a| == 1 && |b| > 0 {
      JoinCons(a[0], b, "");
      assert [a[0]] + b == a + b;
    } else if |a| > 1 {
      ConcatAppend(a[1..], b);
      assert (a + b)[1..] == a[1..] + b;
    } else if |a| == 0 {
      assert a + b == b;
    } else {
      assert a + b == a;
    }
  }

  /** Each piece occurs in the concatenation. */
  /** Each string followed by `t`. */
  function Suffixed(xs: seq<string>, t: string): (r: seq<string>)
    ensures |r| == |xs| && forall i :: 0 <= i < |xs| ==> r[i] == xs[i] + t
  {
    seq(|xs|, i requires 0 <= i < |xs| => xs[i] + t)
  }

  /** Joining with a terminator and ending with one is writing each part with its terminator. */
  lemma {:induction false} JoinTerminated(xs: seq<string>, t: string)
    requires |xs| >= 1
    ensures Join(xs, t) + t == Concat(Suffixed(xs, t))
    decreases |xs|
  {
    var r := Suffixed(xs, t);
    if |xs| == 1 {
      assert r == [xs[0] + t];
      ConcatAppend([xs[0] + t], []);
      assert [xs[0] + t] + [] == [xs[0] + t];
    } else {
      JoinTerminated(xs[1..], t);
      assert r == [xs[0] + t] + Suffixed(xs[1..], t);
      ConcatAppend([xs[0] + t], Suffixed(xs[1..], t));
      assert Concat([xs[0] + t]) == xs[0] + t;
    }
  }

  lemma ConcatHasPiece(parts: seq<string>, k: nat)
    requires k < |parts|
    ensures Contains(Concat(parts), parts[k])
  {
    ConcatAppend(parts[..k], parts[k..]);
    ConcatAppend([parts[k]], parts[k + 1..]);
    assert parts == parts[..k] + parts[k..];
    assert parts[k..] == [parts[k]] + parts[k + 1..];
    assert Concat([parts[k]]) == parts[k];
    assert Concat(parts) == Concat(parts[..k]) + parts[k] + Concat(parts[k + 1..]);
    ContainsInMiddle(Concat(parts[..k]), parts[k], Concat(parts[k + 1..]));
  }

  /** Each string with `pre` in front. */
  function Prefixed(xs: seq<string>, pre: string): (r: seq<string>)
    ensures |r| == |xs| && forall i :: 0 <= i < |xs| ==> r[i] == pre + xs[i]
  {
    seq(|xs|, i requires 0 <= i < |xs| => pre + xs[i])
  }

  /** Joining with `sep + pre` is joining the prefixed strings with `sep`, after one `pre`. */
  lemma {:induction false} JoinPrefixed(xs: seq<string>, pre: string, sep: string)
    requires |xs| >= 1
    ensures Join(Prefixed(xs, pre), sep) == pre + Join(xs, sep + pre)
    decreases |xs|
  {
    if |xs| > 1 {
      var p := Prefixed(xs, pre);
      assert p[1..] == Prefixed(xs[1..], pre);
      JoinPrefixed(xs[1..], pre, sep);
    }
  }

  /**
   * A list joined with `c` and a space splits back at `c`: the head as it
   * was, every later part with the space in front, which trimming removes.
   */
  lemma SplitJoinSpaced(head: string, xs: seq<string>, c: char)
    requires c != ' ' && c !in head
    requires forall i :: 0 <= i < |xs| ==> c !in xs[i] && xs[i] != [] && IsTrimmed(xs[i])
    ensures var parts := Split(Join([head] + xs, [c, ' ']), c);
      |parts| == 1 + |xs| && parts[0] == head && forall i :: 0 <= i < |xs| ==> Trim(parts[i + 1]) == xs[i]
  {
    var parts := [head] + Prefixed(xs, " ");
    if xs == [] {
      assert [head] + xs == [head] && parts == [head];
    } else {
      var j := Join(xs, [c, ' ']);
      JoinCons(head, xs, [c, ' ']);
      assert [c] + " " == [c, ' '];
      JoinPrefixed(xs, " ", [c]);
      JoinCons(head, Prefixed(xs, " "), [c]);
      assert Join(parts, [c]) == head + [c] + (" " + j);
      assert head + [c] + (" " + j) == head + [c, ' '] + j;
    }
    assert Join([head] + xs, [c, ' ']) == Join(parts, [c]);
    forall i | 0 <= i < |parts| ensures c !in parts[i] {
      if i > 0 {
        assert parts[i] == " " + xs[i - 1];
      }
    }
    SplitJoin(parts, c);
    forall i | 0 <= i < |xs| ensures Trim(parts[i + 1]) == xs[i] {
      TrimSpacePrefix(xs[i]);
    }
  }

  /** Trimming undoes a space put in front of trimmed text. */
  lemma TrimSpacePrefix(x: string)
    requires x != [] && IsTrimmed(x)
    ensures Trim(" " + x) == x
  {
    var s := " " + x;
    assert s[1..] == x;
    assert TrimStart(s) == x;
    TrimOfTrimmed(x);
  }

  /** Trimming never brings in a character. */
  lemma TrimKeepsOut(s: string, c: char)
    requires c !in s
    ensures c !in Trim(s)
  {
    var i := TrimParts(s);
    assert forall k :: 0 <= k < |Trim(s)| ==> Trim(s)[k] == s[i + k];
  }

  /** `s.split(c)` for a one-character separator: never empty. */
  function Split(s: string, c: char): (r: seq<string>)
    ensures |r| >= 1
    ensures forall i :: 0 <= i < |r| ==> c !in r[i]
    decreases |s|
  {
    if s == [] then [""]
    else
      var rest := Split(s[1..], c);
      if s[0] == c then [""] + rest
      else [[s[0]] + rest[0]] + rest[1..]
  }

  lemma {:induction false} SplitNoSep(p: string, c: char)
    requires c !in p
    ensures Split(p, c) == [p]
    decreases |p|
  {
    if p != [] {
      SplitNoSep(p[1..], c);
      assert [p[0]] + p[1..] == p;
    }
  }

  lemma {:induction false} SplitFirst(p: string, c: char, rest: string)
    requires c !in p
    ensures Split(p + [c] + rest, c) == [p] + Split(rest, c)
    decreases |p|
  {
    var s := p + [c] + rest;
    if p == [] {
      assert s[1..] == rest;
    } else {
      assert s[1..] == p[1..] + [c] + rest;
      SplitFirst(p[1..], c, rest);
      assert [p[0]] + p[1..] == p;
    }
  }

  /** Splitting inverts joining when no part holds the separator. */
  lemma {:induction false} SplitJoin(parts: seq<string>, c: char)
    requires |parts| >= 1
    requires forall i :: 0 <= i < |parts| ==> c !in parts[i]
    ensures Split(Join(parts, [c]), c) == parts
    decreases |parts|
  {
    if |parts| == 1 {
      SplitNoSep(parts[0], c);
    } else {
      SplitJoin(parts[1..], c);
      SplitFirst(parts[0], c, Join(parts[1..], [c]));
      assert [parts[0]] + parts[1..] == parts;
    }
  }

  /** `xs.filter(Boolean)`: the non-empty strings, in order. */
  function NonEmpty(xs: seq<string>): (r: seq<string>)
    ensures |r| <= |xs|
    ensures forall x :: x in r <==> x in xs && x != ""
    decreases |xs|
  {
    if xs == [] then []
    else
      assert forall x :: x in xs <==> x == xs[0] || x in xs[1..];
      (if xs[0] == "" then [] else [xs[0]]) + NonEmpty(xs[1..])
  }

  lemma {:induction false} NonEmptyDistinct(xs: seq<string>)
    requires Distinct(xs)
    ensures Distinct(NonEmpty(xs))
    decreases |xs|
  {
    if xs != [] {
      NonEmptyDistinct(xs[1..]);
      assert xs[0] !in xs[1..];
    }
  }

  /** A list that starts with a non-empty string keeps it in front. */
  lemma NonEmptyCons(x: string, xs: seq<string>)
    requires x != ""
    ensures NonEmpty([x] + xs) == [x] + NonEmpty(xs)
  {
    assert ([x] + xs)[1..] == xs;
  }

  // ---------------------------------------------------------------------------
  // Decimal digits of natural numbers

  function DigitChar(d: nat): char
    requires d < 10
  {
    '0' + d as char
  }

  function DigitValue(c: char): nat
    requires IsDigit(c)
  {
    (c - '0') as nat
  }

  /** `String(n)` for a natural number: decimal digits without leading zeros. */
  function NatToString(n: nat): (r: string)
    ensures |r| >= 1 && AllDigits(r)
    ensures |r| > 1 ==> r[0] != '0'
    decreases n
  {
    if n < 10 then [DigitChar(n)] else NatToString(n / 10) + [DigitChar(n % 10)]
  }

  /** The value of a string of decimal digits (leading zeros allowed). */
  function DigitsValue(s: string): nat
    requires AllDigits(s)
    decreases |s|
  {
    if s == [] then 0 else 10 * DigitsValue(s[..|s| - 1]) + DigitValue(s[|s| - 1])
  }

  lemma {:induction false} DigitsOfNat(n: nat)
    ensures DigitsValue(NatToString(n)) == n
    decreases n
  {
    var s := NatToString(n);
    if n >= 10 {
      DigitsOfNat(n / 10);
      assert s[..|s| - 1] == NatToString(n / 10);
    }
  }

  /** Two naturals print the same only if they are equal. */
  lemma NatToStringInjective(m: nat, n: nat)
    requires NatToString(m) == NatToString(n)
    ensures m == n
  {
    DigitsOfNat(m);
    DigitsOfNat(n);
  }

  // ---------------------------------------------------------------------------
  // First-occurrence de-duplication

  /**
   * Keeps each element whose key has not been seen before (the keys in `seen`
   * count as seen), in order: `[...new Set(xs)]` when the key is the element.
   */
  function DedupBy<T, K(==)>(xs: seq<T>, key: T -> K, seen: set<K>): seq<T>
    decreases |xs|
  {
    if xs == [] then []
    else if key(xs[0]) in seen then DedupBy(xs[1..], key, seen)
    else [xs[0]] + DedupBy(xs[1..], key, seen + {key(xs[0])})
  }

  function KeysOf<T, K(==)>(xs: seq<T>, key: T -> K): set<K>
    decreases |xs|
  {
    if xs == [] then {} else {key(xs[0])} + KeysOf(xs[1..], key)
  }

  function Id<T>(x: T): T { x }

  function Dedup<T(==)>(xs: seq<T>): seq<T> {
    DedupBy(xs, Id, {})
  }

  predicate DistinctKeys<T, K(==)>(s: seq<T>, key: T -> K) {
    forall i, j :: 0 <= i < j < |s| ==> key(s[i]) != key(s[j])
  }

  lemma HeadIsMember<T>(s: seq<T>)
    ensures |s| > 0 ==> s[0] in s
  {
  }

  predicate Distinct<T(==)>(s: seq<T>) {
    forall i, j :: 0 <= i < j < |s| ==> s[i] != s[j]
  }

  lemma {:induction false} KeysOfAppend<T, K>(a: seq<T>, b: seq<T>, key: T -> K)
    ensures KeysOf(a + b, key) == KeysOf(a, key) + KeysOf(b, key)
    decreases |a|
  {
    if a != [] {
      assert (a + b)[1..] == a[1..] + b;
      assert (a + b)[0] == a[0];
      KeysOfAppend(a[1..], b, key);
    } else {
      assert a + b == b;
    }
  }

  lemma {:induction false} KeysOfMember<T, K>(xs: seq<T>, key: T -> K, k: K)
    ensures k in KeysOf(xs, key) <==> exists i :: 0 <= i < |xs| && key(xs[i]) == k
    decreases |xs|
  {
    if xs != [] {
      KeysOfMember(xs[1..], key, k);
      if exists i :: 0 <= i < |xs[1..]| && key(xs[1..][i]) == k {
        var i :| 0 <= i < |xs[1..]| && key(xs[1..][i]) == k;
        assert key(xs[i + 1]) == k;
      }
      if exists i :: 0 <= i < |xs| && key(xs[i]) == k {
        var i :| 0 <= i < |xs| && key(xs[i]) == k;
        if i > 0 { assert key(xs[1..][i - 1]) == k; }
      }
    }
  }

  /** De-duplicating a concatenation: the second part only contributes unseen keys. */
  lemma {:induction false} DedupByAppend<T, K>(a: seq<T>, b: seq<T>, key: T -> K, seen: set<K>)
    ensures DedupBy(a + b, key, seen) == DedupBy(a, key, seen) + DedupBy(b, key, seen + KeysOf(a, key))
    decreases |a|
  {
    if a == [] {
      assert a + b == b;
      assert KeysOf(a, key) == {};
      assert seen + KeysOf(a, key) == seen;
      assert DedupBy(a, key, seen) == [];
    } else {
      assert (a + b)[1..] == a[1..] + b;
      assert (a + b)[0] == a[0];
      if key(a[0]) in seen {
        DedupByAppend(a[1..], b, key, seen);
        assert seen + KeysOf(a, key) == seen + KeysOf(a[1..], key);
      } else {
        DedupByAppend(a[1..], b, key, seen + {key(a[0])});
        assert seen + {key(a[0])} + KeysOf(a[1..], key) == seen + KeysOf(a, key);
      }
    }
  }

  /** The step a left-to-right loop with a `seen` set performs. */
  lemma DedupBySnoc<T, K>(a: seq<T>, x: T, key: T -> K)
    ensures DedupBy(a + [x], key, {}) ==
      DedupBy(a, key, {}) + (if key(x) in KeysOf(a, key) then [] else [x])
  {
    DedupByAppend(a, [x], key, {});
    assert [x][1..] == [];
  }

  /** The result never repeats a key and never holds a key already seen. */
  lemma {:induction false} DedupByDistinct<T, K>(xs: seq<T>, key: T -> K, seen: set<K>)
    ensures DistinctKeys(DedupBy(xs, key, seen), key)
    ensures forall i :: 0 <= i < |DedupBy(xs, key, seen)| ==> key(DedupBy(xs, key, seen)[i]) !in seen
    decreases |xs|
  {
    if xs != [] {
      if key(xs[0]) in seen {
        DedupByDistinct(xs[1..], key, seen);
      } else {
        DedupByDistinct(xs[1..], key, seen + {key(xs[0])});
      }
    }
  }

  /** Every kept element comes from the input, and every unseen key of the input is kept. */
  lemma {:induction false} DedupByKeys<T, K>(xs: seq<T>, key: T -> K, seen: set<K>)
    ensures forall y :: y in DedupBy(xs, key, seen) ==> y in xs
    ensures KeysOf(DedupBy(xs, key, seen), key) == KeysOf(xs, key) - seen
    decreases |xs|
  {
    if xs != [] {
      if key(xs[0]) in seen {
        DedupByKeys(xs[1..], key, seen);
      } else {
        DedupByKeys(xs[1..], key, seen + {key(xs[0])});
        var rest := DedupBy(xs[1..], key, seen + {key(xs[0])});
        assert DedupBy(xs, key, seen) == [xs[0]] + rest;
        KeysOfAppend([xs[0]], rest, key);
        assert KeysOf([xs[0]], key) == {key(xs[0])};
      }
    }
  }

  /** `[...new Set(xs)]` holds each element of `xs` exactly once. */
  lemma DedupSpec<T>(xs: seq<T>)
    ensures Distinct(Dedup(xs))
    ensures forall y :: y in Dedup(xs) <==> y in xs
  {
    var id := Id;
    DedupByDistinct(xs, id, {});
    DedupByKeys(xs, id, {});
    forall y ensures y in Dedup(xs) <==> y in xs {
      KeysOfMember(xs, id, y);
      KeysOfMember(Dedup(xs), id, y);
      if y in xs {
        var i :| 0 <= i < |xs| && xs[i] == y;
        assert id(xs[i]) == y;
      }
      if y in Dedup(xs) {
        var i :| 0 <= i < |Dedup(xs)| && Dedup(xs)[i] == y;
        assert id(Dedup(xs)[i]) == y;
      }
    }
  }

  /** De-duplication changes nothing when there is nothing to remove. */
  lemma {:induction false} DedupOfDistinct<T>(xs: seq<T>, seen: set<T>)
    requires Distinct(xs)
    requires forall i :: 0 <= i < |xs| ==> xs[i] !in seen
    ensures DedupBy(xs, Id, seen) == xs
    decreases |xs|
  {
    if xs != [] {
      assert forall i :: 0 <= i < |xs[1..]| ==> xs[1..][i] == xs[i + 1];
      DedupOfDistinct(xs[1..], seen + {xs[0]});
    }
  }

  /** The first non-empty string survives de-duplication and the empty-string filter, in front. */
  lemma DedupNonEmptyHead(t: seq<string>)
    requires |t| >= 2 && t[1] != ""
    ensures var r := NonEmpty(Dedup(t));
      |r| > 0 && r[0] == (if t[0] != "" then t[0] else t[1])
  {
    assert t == [t[0]] + t[1..];
    var d := Dedup(t);
    assert Id(t[0]) == t[0] && Id(t[1]) == t[1];
    assert {} + {t[0]} == {t[0]};
    assert d == [t[0]] + DedupBy(t[1..], Id, {t[0]});
    if t[0] != "" {
      NonEmptyCons(t[0], DedupBy(t[1..], Id, {t[0]}));
    } else {
      var u := t[1..];
      assert u == [t[1]] + u[1..];
      assert t[1] !in {t[0]} && {t[0]} + {t[1]} == {t[0], t[1]};
      assert DedupBy(u, Id, {t[0]}) == [t[1]] + DedupBy(u[1..], Id, {t[0], t[1]});
      assert NonEmpty(d) == NonEmpty(d[1..]);
      NonEmptyCons(t[1], DedupBy(u[1..], Id, {t[0], t[1]}));
    }
  }

  /** The step of a loop that appends an element unless it is already there. */
  lemma DedupExtend<T>(base: seq<T>, more: seq<T>, k: nat)
    requires k < |more|
    ensures var before := Dedup(base + more[..k]);
      Dedup(base + more[..k + 1]) == before + (if more[k] in before then [] else [more[k]])
  {
    assert base + more[..k + 1] == (base + more[..k]) + [more[k]];
    DedupSnoc(base + more[..k], more[k]);
  }

  lemma DedupSnoc<T>(xs: seq<T>, x: T)
    ensures Dedup(xs + [x]) == Dedup(xs) + (if x in Dedup(xs) then [] else [x])
  {
    DedupBySnoc(xs, x, Id);
    DedupSpec(xs);
    KeysOfMember(xs, Id, x);
    if x in xs {
      var i :| 0 <= i < |xs| && xs[i] == x;
      assert Id(xs[i]) == x;
    }
  }
}
