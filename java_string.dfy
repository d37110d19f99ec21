/** The few `java.lang.String` and `java.lang.Integer` operations the relay and the
    client build their wire lines with, stated on `seq<char>`. */
module JavaString {
  import opened Wrappers

  /** `s.startsWith(p)`. */
  predicate StartsWith(s: string, p: string) {
    |p| <= |s| && s[..|p|] == p
  }

  /** A line that differs from `p` at a position both have does not start with `p`. */
  lemma Mismatch(s: string, p: string, j: nat)
    requires j < |s| && j < |p| && s[j] != p[j]
    ensures !StartsWith(s, p)
  {
  }

  /** A line that starts with a non-empty `p` starts with `p`'s first character. */
  lemma StartsWithHead(s: string, p: string)
    ensures StartsWith(s, p) && p != [] ==> s != [] && s[0] == p[0]
  {
    if StartsWith(s, p) && p != [] {
      assert s[..|p|][0] == s[0];
    }
  }

  /** Position of the first space of `s`, or `|s|` when `s` has none. */
  function IndexOfSpace(s: string): (k: nat)
    ensures k <= |s|
    ensures k < |s| ==> s[k] == ' '
    ensures forall j :: 0 <= j < k ==> s[j] != ' '
  {
    if s == [] then 0 else if s[0] == ' ' then 0 else 1 + IndexOfSpace(s[1..])
  }

  /** `s.split(" ", limit)` for a positive `limit`: the line is cut at its first
      `limit - 1` single spaces (two adjacent spaces give an empty piece) and the
      last piece keeps whatever remains, spaces included. */
  function Split(s: string, limit: nat): (r: seq<string>)
    requires limit >= 1
    ensures 1 <= |r| <= limit
    ensures forall j :: 0 <= j < |r| - 1 ==> ' ' !in r[j]
    ensures |r| < limit ==> ' ' !in r[|r| - 1]
    decreases limit
  {
    var k := IndexOfSpace(s);
    if limit == 1 || k == |s| then [s]
    else [s[..k]] + Split(s[k + 1..], limit - 1)
  }

  /** The pieces glued back together with one space between neighbours. */
  function JoinSpaces(ps: seq<string>): string
    requires |ps| >= 1
  {
    if |ps| == 1 then ps[0] else ps[0] + " " + JoinSpaces(ps[1..])
  }

  /** Splitting loses nothing: the pieces put back together are the line. */
  lemma {:induction false} SplitThenJoin(s: string, limit: nat)
    requires limit >= 1
    ensures JoinSpaces(Split(s, limit)) == s
    decreases limit
  {
    var k := IndexOfSpace(s);
    if limit != 1 && k != |s| {
      var head, tail := s[..k], s[k + 1..];
      var rest := Split(tail, limit - 1);
      assert JoinSpaces(rest) == tail by { SplitThenJoin(tail, limit - 1); }
      assert Split(s, limit) == [head] + rest;
      assert JoinSpaces([head] + rest) == head + " " + tail by { JoinCons(head, rest); }
      assert head + " " + tail == s by { CutAtSpace(s, k); }
    }
  }

  /** Gluing one more piece in front adds it and a space. */
  lemma JoinCons(a: string, rest: seq<string>)
    requires |rest| >= 1
    ensures JoinSpaces([a] + rest) == a + " " + JoinSpaces(rest)
  {
    assert ([a] + rest)[1..] == rest;
  }

  /** A line is the text before a space, the space, and the text after it. */
  lemma CutAtSpace(s: string, k: nat)
    requires k < |s| && s[k] == ' '
    ensures s == s[..k] + " " + s[k + 1..]
  {
    assert s == s[..k] + s[k..];
    assert s[k..] == [s[k]] + s[k + 1..];
  }

  /** A line without a space is one piece. */
  lemma SplitWithoutSpace(s: string, limit: nat)
    requires ' ' !in s && limit >= 1
    ensures Split(s, limit) == [s]
  {
  }

  /** A space-free first field is cut off at the space that follows it. */
  lemma SplitAtFirstSpace(a: string, tail: string, limit: nat)
    requires ' ' !in a && limit >= 2
    ensures Split(a + " " + tail, limit) == [a] + Split(tail, limit - 1)
  {
    var s := a + " " + tail;
    var k := IndexOfSpace(s);
    assert s[|a|] == ' ';
    assert k == |a|;
    assert s[..k] == a;
    assert s[k + 1..] == tail;
  }

  /** Splitting a line that was built by joining space-free fields gives the fields back;
      only the last field may contain spaces, and only when it is the `limit`-th. */
  lemma {:induction false} JoinThenSplit(ps: seq<string>, limit: nat)
    requires 1 <= |ps| <= limit
    requires forall j :: 0 <= j < |ps| - 1 ==> ' ' !in ps[j]
    requires |ps| < limit ==> ' ' !in ps[|ps| - 1]
    ensures Split(JoinSpaces(ps), limit) == ps
    decreases |ps|, 1
  {
    if |ps| == 1 {
      if limit > 1 {
        SplitWithoutSpace(ps[0], limit);
      }
    } else {
      JoinManyThenSplit(ps, limit);
    }
  }

  lemma {:induction false} JoinManyThenSplit(ps: seq<string>, limit: nat)
    requires 2 <= |ps| <= limit
    requires forall j :: 0 <= j < |ps| - 1 ==> ' ' !in ps[j]
    requires |ps| < limit ==> ' ' !in ps[|ps| - 1]
    ensures Split(JoinSpaces(ps), limit) == ps
    decreases |ps|, 0
  {
    var a, rest := ps[0], ps[1..];
    assert ps == [a] + rest;
    assert Split(JoinSpaces(rest), limit - 1) == rest by {
      TailPieces(ps, rest, limit);
      JoinThenSplit(rest, limit - 1);
    }
    ConsThenSplit(a, rest, limit);
  }

  /** A space-free piece in front of pieces that split back survives the split too. */
  lemma ConsThenSplit(a: string, rest: seq<string>, limit: nat)
    requires ' ' !in a && limit >= 2 && |rest| >= 1
    requires Split(JoinSpaces(rest), limit - 1) == rest
    ensures Split(JoinSpaces([a] + rest), limit) == [a] + rest
  {
    JoinCons(a, rest);
    SplitAtFirstSpace(a, JoinSpaces(rest), limit);
  }

  /** The pieces after the first meet the conditions of `JoinThenSplit` one limit lower. */
  lemma TailPieces(ps: seq<string>, rest: seq<string>, limit: nat)
    requires 2 <= |ps| <= limit && rest == ps[1..]
    requires forall j :: 0 <= j < |ps| - 1 ==> ' ' !in ps[j]
    requires |ps| < limit ==> ' ' !in ps[|ps| - 1]
    ensures forall j :: 0 <= j < |rest| - 1 ==> ' ' !in rest[j]
    ensures |rest| < limit - 1 ==> ' ' !in rest[|rest| - 1]
  {
    forall j | 0 <= j < |rest| - 1 ensures ' ' !in rest[j] {
      assert rest[j] == ps[j + 1];
    }
    assert rest[|rest| - 1] == ps[|ps| - 1];
  }

  /** `s.substring(k)`; `None` stands for the StringIndexOutOfBoundsException thrown
      when `k` is beyond the end. */
  function Substring(s: string, k: nat): (r: Option<string>)
    ensures r.Some? <==> k <= |s|
    ensures r.Some? ==> s == s[..k] + r.value
  {
    if k <= |s| then Some(s[k..]) else None
  }

  /** True of the characters `String.trim` strips: every code point up to U+0020. */
  predicate IsTrimmed(c: char) {
    c <= ' '
  }

  function TrimStart(s: string): (r: string)
    ensures |r| <= |s| && r == s[|s| - |r|..]
    ensures r != [] ==> !IsTrimmed(r[0])
    ensures forall j :: 0 <= j < |s| - |r| ==> IsTrimmed(s[j])
  {
    if s != [] && IsTrimmed(s[0]) then TrimStart(s[1..]) else s
  }

  function TrimEnd(s: string): (r: string)
    ensures |r| <= |s| && r == s[..|r|]
    ensures r != [] ==> !IsTrimmed(r[|r| - 1])
    ensures forall j :: |r| <= j < |s| ==> IsTrimmed(s[j])
  {
    if s != [] && IsTrimmed(s[|s| - 1]) then TrimEnd(s[..|s| - 1]) else s
  }

  /** `s.trim()`: the longest infix of `s` that starts and ends with a character above
      U+0020; it is empty exactly when every character of `s` is at most U+0020. */
  function Trim(s: string): (r: string)
    ensures exists i, j :: 0 <= i <= j <= |s| && r == s[i..j]
                           && (forall m :: 0 <= m < i ==> IsTrimmed(s[m]))
                           && (forall m :: j <= m < |s| ==> IsTrimmed(s[m]))
    ensures r != [] ==> !IsTrimmed(r[0]) && !IsTrimmed(r[|r| - 1])
    ensures r == [] <==> forall j :: 0 <= j < |s| ==> IsTrimmed(s[j])
  {
    var t := TrimStart(s);
    var r := TrimEnd(t);
    TrimIsInfix(s, t, r);
    r
  }

  /** A suffix of `s` cut after trimmed characters, then cut before trimmed
      characters, is an infix of `s` with only trimmed characters around it. */
  lemma TrimIsInfix(s: string, t: string, r: string)
    requires |t| <= |s| && t == s[|s| - |t|..]
    requires forall m :: 0 <= m < |s| - |t| ==> IsTrimmed(s[m])
    requires t != [] ==> !IsTrimmed(t[0])
    requires |r| <= |t| && r == t[..|r|]
    requires forall m :: |r| <= m < |t| ==> IsTrimmed(t[m])
    requires r != [] ==> !IsTrimmed(r[|r| - 1])
    ensures exists i, j :: 0 <= i <= j <= |s| && r == s[i..j]
                           && (forall m :: 0 <= m < i ==> IsTrimmed(s[m]))
                           && (forall m :: j <= m < |s| ==> IsTrimmed(s[m]))
    ensures r != [] ==> !IsTrimmed(r[0]) && !IsTrimmed(r[|r| - 1])
    ensures r == [] <==> forall m :: 0 <= m < |s| ==> IsTrimmed(s[m])
  {
    var i := |s| - |t|;
    var j := i + |r|;
    assert r == s[i..j];
    forall m | j <= m < |s|
      ensures IsTrimmed(s[m])
    {
      assert s[m] == t[m - i];
    }
    if r != [] {
      assert r[0] == t[0] == s[i];
    }
  }

  predicate IsDigit(c: char) {
    '0' <= c <= '9'
  }

  predicate AllDigits(s: string) {
    forall j :: 0 <= j < |s| ==> IsDigit(s[j])
  }

  function DigitChar(d: nat): (c: char)
    requires d < 10
    ensures IsDigit(c) && (c as int) - ('0' as int) == d
  {
    "0123456789"[d]
  }

  /** `Integer.toString(n)` for `n >= 0`, which is what `"..." + n` writes: decimal
      digits without leading zeros. */
  function NatToString(n: nat): (r: string)
    ensures |r| >= 1 && AllDigits(r)
  {
    if n < 10 then [DigitChar(n)] else NatToString(n / 10) + [DigitChar(n % 10)]
  }

  /** The number a string of decimal digits denotes. */
  function DigitsValue(s: string): nat
    requires AllDigits(s)
  {
    if s == [] then 0
    else DigitsValue(s[..|s| - 1]) * 10 + ((s[|s| - 1] as int) - ('0' as int))
  }

  const IntMax: int := 0x7fff_ffff
  const IntMin: int := -0x8000_0000

  /** `Integer.parseInt(s)`: an optional sign and at least one decimal digit, the value
      within the 32-bit range; `None` stands for the NumberFormatException. */
  function ParseInt(s: string): (r: Option<int>)
    ensures r.Some? ==> IntMin <= r.value <= IntMax
    ensures s == [] ==> r == None
    ensures s != [] && AllDigits(s) ==>
              r == if DigitsValue(s) <= IntMax then Some(DigitsValue(s)) else None
    ensures |s| >= 2 && s[0] == '-' && AllDigits(s[1..]) ==>
              r == if DigitsValue(s[1..]) <= -IntMin then Some(-(DigitsValue(s[1..]) as int)) else None
    ensures |s| >= 2 && s[0] == '+' && AllDigits(s[1..]) ==>
              r == if DigitsValue(s[1..]) <= IntMax then Some(DigitsValue(s[1..])) else None
  {
    if s == [] then None
    else if s[0] == '-' || s[0] == '+' then
      var digits := s[1..];
      if digits == [] || !AllDigits(digits) then None
      else
        var v: int := if s[0] == '-' then -(DigitsValue(digits) as int) else DigitsValue(digits);
        if IntMin <= v <= IntMax then Some(v) else None
    else if !AllDigits(s) then None
    else if DigitsValue(s) <= IntMax then Some(DigitsValue(s))
    else None
  }

  /** `parseInt` rejects a lone sign and any character other than a decimal digit,
      except a sign in the first position. */
  lemma ParseIntRejectsNonDigit(s: string, j: nat)
    requires j < |s| && !IsDigit(s[j])
    requires j == 0 ==> s[0] != '-' && s[0] != '+'
    ensures ParseInt(s) == None
  {
    if j > 0 {
      assert s[1..][j - 1] == s[j];
    }
  }

  lemma ParseIntRejectsSign(c: char)
    requires c == '-' || c == '+'
    ensures ParseInt([c]) == None
  {
  }

  /** `parseInt` rejects any text with a space in it. */
  lemma ParseIntRejectsSpace(s: string, j: nat)
    requires j < |s| && s[j] == ' '
    ensures ParseInt(s) == None
  {
    assert !AllDigits(s);
    if j > 0 {
      assert s[1..][j - 1] == ' ';
    }
  }

  lemma {:induction false} DigitsValueOfNatToString(n: nat)
    ensures DigitsValue(NatToString(n)) == n
    decreases n
  {
    var s := NatToString(n);
    if n >= 10 {
      DigitsValueOfNatToString(n / 10);
      assert s[..|s| - 1] == NatToString(n / 10);
    }
  }

  /** `Integer.parseInt` reads back what `Integer.toString` wrote, for every `int` that
      is not negative. */
  lemma ParseIntOfNatToString(n: nat)
    requires n <= IntMax
    ensures ParseInt(NatToString(n)) == Some(n)
  {
    DigitsValueOfNatToString(n);
  }

  /** A decimal rendering never contains the field separator. */
  lemma NatToStringHasNoSpace(n: nat)
    ensures ' ' !in NatToString(n)
  {
  }
}
