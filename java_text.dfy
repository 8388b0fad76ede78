/** The few java.lang.String operations the screens rely on, stated over `seq<char>`. */
module JavaText {

  datatype Option<+T> = None | Some(value: T)

  /** `String.trim` removes every leading and trailing character whose code is at most U+0020. */
  predicate IsTrimmed(c: char) {
    c <= ' '
  }

  function TrimStart(s: string): (r: string)
    ensures |r| <= |s| && r == s[|s| - |r|..]
    ensures forall i :: 0 <= i < |s| - |r| ==> IsTrimmed(s[i])
    ensures r != [] ==> !IsTrimmed(r[0])
  {
    if s != [] && IsTrimmed(s[0]) then TrimStart(s[1..]) else s
  }

  function TrimEnd(s: string): (r: string)
    ensures |r| <= |s| && r == s[..|r|]
    ensures forall i :: |r| <= i < |s| ==> IsTrimmed(s[i])
    ensures r != [] ==> !IsTrimmed(r[|r| - 1])
  {
    if s != [] && IsTrimmed(s[|s| - 1]) then TrimEnd(s[..|s| - 1]) else s
  }

  /** Java's `String.trim()`: what remains once every blank at either end is removed
      (`TrimIsSlice` shows it is the slice of `s` between those blanks). */
  function Trim(s: string): (r: string)
    ensures |r| <= |s|
    ensures r == [] <==> forall i :: 0 <= i < |s| ==> IsTrimmed(s[i])
    ensures r != [] ==> !IsTrimmed(r[0]) && !IsTrimmed(r[|r| - 1])
  {
    TrimEmptyOnlyWhenBlank(s);
    TrimKeepsNoBlankEnd(s);
    TrimEnd(TrimStart(s))
  }

  /** Neither end of a non-empty trim is a blank. */
  lemma {:induction false} TrimKeepsNoBlankEnd(s: string)
    ensures var r := TrimEnd(TrimStart(s)); r != [] ==> !IsTrimmed(r[0]) && !IsTrimmed(r[|r| - 1])
  {
    var t := TrimStart(s);
    var r := TrimEnd(t);
    if r != [] {
      assert r[0] == t[0];
    }
  }

  /** What is left after trimming is the slice between the leading and the trailing blanks. */
  lemma {:induction false} TrimIsSlice(s: string)
    ensures var r := Trim(s); var i := |s| - |TrimStart(s)|;
      && OccursAt(s, r, i)
      && (forall k :: 0 <= k < i ==> IsTrimmed(s[k]))
      && (forall k :: i + |r| <= k < |s| ==> IsTrimmed(s[k]))
  {
    var t := TrimStart(s);
    assert Trim(s) == TrimEnd(t);
    SliceBetweenBlanks(s, t, TrimEnd(t));
  }

  /** A prefix `r` of a suffix `t` of `s`, followed in `t` only by blanks, is the slice of `s`
      after `|s| - |t|` characters, and every character of `s` after it is a blank. */
  lemma SliceBetweenBlanks(s: string, t: string, r: string)
    requires |t| <= |s| && t == s[|s| - |t|..]
    requires |r| <= |t| && r == t[..|r|]
    requires forall k :: |r| <= k < |t| ==> IsTrimmed(t[k])
    ensures var i := |s| - |t|;
      && OccursAt(s, r, i)
      && forall k :: i + |r| <= k < |s| ==> IsTrimmed(s[k])
  {
  }

  /** Nothing is left exactly when every character is a blank. */
  lemma {:induction false} TrimEmptyOnlyWhenBlank(s: string)
    ensures TrimEnd(TrimStart(s)) == [] <==> forall i :: 0 <= i < |s| ==> IsTrimmed(s[i])
  {
    var t := TrimStart(s);
    if t != [] {
      assert !IsTrimmed(t[0]);
      assert TrimEnd(t) != [];
    }
  }

  /** Trimming twice is trimming once. */
  lemma TrimIdempotent(s: string)
    ensures Trim(Trim(s)) == Trim(s)
  {
    var t := Trim(s);
    if t != [] {
      assert TrimStart(t) == t;
      assert TrimEnd(t) == t;
    }
  }

  /** `sub` occurs in `s` starting at index `i`. */
  predicate OccursAt(s: string, sub: string, i: nat) {
    i + |sub| <= |s| && s[i..i + |sub|] == sub
  }

  /** Java's `s.indexOf(sub)`: the first index at which `sub` occurs, or none (-1). */
  function IndexOf(s: string, sub: string): (r: Option<nat>)
    ensures r.Some? ==> OccursAt(s, sub, r.value)
    ensures r.Some? ==> forall j :: 0 <= j < r.value ==> !OccursAt(s, sub, j)
    ensures r.None? ==> forall j :: 0 <= j <= |s| ==> !OccursAt(s, sub, j)
    decreases |s|
  {
    if |s| < |sub| then None
    else if s[..|sub|] == sub then Some(0)
    else
      match IndexOf(s[1..], sub)
      case None =>
        assert forall j :: 1 <= j <= |s| ==> (OccursAt(s, sub, j) <==> OccursAt(s[1..], sub, j - 1));
        None
      case Some(k) =>
        assert forall j :: 1 <= j <= |s| ==> (OccursAt(s, sub, j) <==> OccursAt(s[1..], sub, j - 1));
        Some(k + 1)
  }

  /** An occurrence with none before it is the one `indexOf` finds. */
  lemma IndexOfFindsFirst(s: string, sub: string, k: nat)
    requires OccursAt(s, sub, k) && forall j :: 0 <= j < k ==> !OccursAt(s, sub, j)
    ensures IndexOf(s, sub) == Some(k)
  {
    var r := IndexOf(s, sub);
    if r.Some? {
      assert !(r.value < k) && !(k < r.value);
    }
  }

  /** Java's `s.contains(sub)`: `sub` occurs somewhere in `s`. */
  predicate Contains(s: string, sub: string)
    ensures Contains(s, sub) <==> exists i :: 0 <= i <= |s| && OccursAt(s, sub, i)
  {
    IndexOf(s, sub).Some?
  }

  /** Text that ends with `w` contains it. */
  lemma ContainsAtEnd(p: string, w: string)
    ensures Contains(p + w, w)
  {
    assert (p + w)[|p|..|p| + |w|] == w;
    assert OccursAt(p + w, w, |p|);
  }

  /** Appending text keeps every occurrence. */
  lemma ContainsExtends(p: string, q: string, w: string)
    requires Contains(p, w)
    ensures Contains(p + q, w)
  {
    var i :| 0 <= i <= |p| && OccursAt(p, w, i);
    assert (p + q)[i..i + |w|] == p[i..i + |w|];
    assert OccursAt(p + q, w, i);
  }

  /** A string none of whose characters is the first character of `sub` cannot contain `sub`. */
  lemma NotContainsWithoutFirstChar(s: string, sub: string)
    requires sub != [] && sub[0] !in s
    ensures !Contains(s, sub)
  {
  }

  /** Only the very first position can hold `sub` when its first character appears nowhere else. */
  lemma NotContainsUnlessAtFront(s: string, sub: string)
    requires sub != [] && s != [] && !OccursAt(s, sub, 0) && sub[0] !in s[1..]
    ensures !Contains(s, sub)
  {
    NotContainsWithoutFirstChar(s[1..], sub);
  }

  /** `sub` cannot start at a position holding a character other than its first. */
  lemma NotOccursAtMismatch(s: string, sub: string, i: nat)
    requires sub != [] && i < |s| && s[i] != sub[0]
    ensures !OccursAt(s, sub, i)
  {
  }

  /** Java's `s.startsWith(prefix)`. */
  predicate StartsWith(s: string, prefix: string) {
    |prefix| <= |s| && s[..|prefix|] == prefix
  }

  /** `startsWith` holds exactly when `indexOf` finds the prefix at the very front. */
  lemma StartsWithFindsAtFront(s: string, prefix: string)
    ensures StartsWith(s, prefix) <==> IndexOf(s, prefix) == Some(0)
  {
  }

  /** Java's `s.replace(target, replacement)`: every occurrence, left to right, without overlaps. */
  function ReplaceAll(s: string, target: string, replacement: string): (r: string)
    requires target != []
    ensures replacement == target ==> r == s
    decreases |s|
  {
    if |s| < |target| then s
    else if s[..|target|] == target then
      assert s[..|target|] + s[|target|..] == s;
      replacement + ReplaceAll(s[|target|..], target, replacement)
    else
      assert [s[0]] + s[1..] == s;
      [s[0]] + ReplaceAll(s[1..], target, replacement)
  }

  /** Text in which the target's first character never appears passes through unchanged,
      also when it stands in front of more text. */
  lemma {:induction false} ReplaceAllSkipsPlainPrefix(a: string, rest: string, target: string, replacement: string)
    requires target != [] && target[0] !in a
    ensures ReplaceAll(a + rest, target, replacement) == a + ReplaceAll(rest, target, replacement)
  {
    if a == [] {
      assert a + rest == rest;
    } else {
      var s := a + rest;
      if |s| < |target| {
        ReplaceAllShortIsIdentity(rest, target, replacement);
        ReplaceAllShortIsIdentity(s, target, replacement);
      } else {
        assert s[..|target|] != target by { assert s[0] == a[0]; }
        assert ReplaceAll(s, target, replacement) == [a[0]] + ReplaceAll(s[1..], target, replacement);
        assert s[1..] == a[1..] + rest;
        ReplaceAllSkipsPlainPrefix(a[1..], rest, target, replacement);
        assert [a[0]] + (a[1..] + ReplaceAll(rest, target, replacement)) == a + ReplaceAll(rest, target, replacement);
      }
    }
  }

  lemma ReplaceAllShortIsIdentity(s: string, target: string, replacement: string)
    requires target != [] && |s| < |target|
    ensures ReplaceAll(s, target, replacement) == s
  {
  }

  /** An occurrence of the target at the front is replaced and the scan resumes after it. */
  lemma ReplaceAllAtFront(rest: string, target: string, replacement: string)
    requires target != []
    ensures ReplaceAll(target + rest, target, replacement) == replacement + ReplaceAll(rest, target, replacement)
  {
    var s := target + rest;
    assert s[..|target|] == target;
    assert s[|target|..] == rest;
  }

  /** Text without the target's first character is left exactly as it is. */
  lemma PlainTextUnchanged(a: string, target: string, replacement: string)
    requires target != [] && target[0] !in a
    ensures ReplaceAll(a, target, replacement) == a
  {
    ReplaceAllSkipsPlainPrefix(a, [], target, replacement);
    assert a + [] == a;
  }

  /** The pieces of Java's `split` before trailing empty strings are dropped:
      the text between successive leftmost, non-overlapping occurrences of `sep`. */
  function Pieces(s: string, sep: string): (r: seq<string>)
    requires sep != []
    ensures |r| >= 1
    ensures forall k :: 0 <= k < |r| ==> !Contains(r[k], sep)
    decreases |s|
  {
    match IndexOf(s, sep)
    case None => [s]
    case Some(i) =>
      NothingBeforeFirst(s, sep, i);
      [s[..i]] + Pieces(s[i + |sep|..], sep)
  }

  /** The text before the first occurrence of `sep` holds no `sep`. */
  lemma NothingBeforeFirst(s: string, sep: string, i: nat)
    requires sep != [] && IndexOf(s, sep) == Some(i)
    ensures !Contains(s[..i], sep)
  {
    var k := IndexOf(s[..i], sep);
    if k.Some? {
      assert s[..i][k.value..k.value + |sep|] == s[k.value..k.value + |sep|];
      assert OccursAt(s, sep, k.value);
    }
  }

  /** Java's `split` with limit 0 removes every trailing empty string. */
  function DropTrailingEmpty(p: seq<string>): (r: seq<string>)
    ensures |r| <= |p| && r == p[..|r|]
    ensures r != [] ==> r[|r| - 1] != []
    ensures forall i :: |r| <= i < |p| ==> p[i] == []
  {
    if p != [] && p[|p| - 1] == [] then DropTrailingEmpty(p[..|p| - 1]) else p
  }

  /** Java's `s.split(sep)` for a separator without regular-expression metacharacters:
      with no occurrence the whole string (even an empty one) comes back as the only element. */
  function Split(s: string, sep: string): (r: seq<string>)
    requires sep != []
    ensures forall k :: 0 <= k < |r| ==> !Contains(r[k], sep)
    ensures Contains(s, sep) && r != [] ==> r[|r| - 1] != []
  {
    if IndexOf(s, sep).None? then [s] else DropTrailingEmpty(Pieces(s, sep))
  }

  /** The text before the first occurrence of `sep`, or the whole string when there is none:
      `s.contains(sep) ? s.substring(0, s.indexOf(sep)) : s`. */
  function PrefixBefore(s: string, sep: string): (r: string)
    requires sep != []
    ensures Contains(s, sep) ==> |r| + |sep| <= |s| && r + sep == s[..|r| + |sep|] && !Contains(r, sep)
    ensures !Contains(s, sep) ==> r == s
  {
    match IndexOf(s, sep)
    case None => s
    case Some(i) =>
      NothingBeforeFirst(s, sep, i);
      s[..i]
  }

  /** `split(sep)[0]` is the text before the first separator whenever that text is not empty. */
  lemma SplitHeadIsPrefix(s: string, sep: string)
    requires sep != [] && PrefixBefore(s, sep) != []
    ensures Split(s, sep) != [] && Split(s, sep)[0] == PrefixBefore(s, sep)
  {
    if IndexOf(s, sep).Some? {
      var p := Pieces(s, sep);
      assert p[0] == PrefixBefore(s, sep);
      var r := DropTrailingEmpty(p);
      assert r != [];
      assert r[0] == p[0];
    }
  }

  /** Decimal digits of a natural number, as `String.valueOf` writes a non-negative `long`:
      the digits denote `n`, and only zero itself starts with a zero. */
  function NatToString(n: nat): (r: string)
    ensures |r| >= 1 && forall i :: 0 <= i < |r| ==> IsAsciiDigit(r[i])
    ensures DecimalValue(r) == n
    ensures r[0] == '0' <==> n == 0
  {
    if n < 10 then ["0123456789"[n]]
    else
      var r := NatToString(n / 10) + ["0123456789"[n % 10]];
      assert r[..|r| - 1] == NatToString(n / 10);
      r
  }

  /** The number a string of decimal digits denotes. */
  function DecimalValue(digits: string): nat
    requires forall i :: 0 <= i < |digits| ==> IsAsciiDigit(digits[i])
  {
    if digits == [] then 0
    else
      var last := digits[|digits| - 1];
      assert IsAsciiDigit(last);
      DecimalValue(digits[..|digits| - 1]) * 10 + (last as int - '0' as int)
  }

  /** Different numbers are written differently. */
  lemma NatToStringInjective(m: nat, n: nat)
    requires NatToString(m) == NatToString(n)
    ensures m == n
  {
  }

  predicate IsAsciiDigit(c: char) {
    '0' <= c <= '9'
  }
}
