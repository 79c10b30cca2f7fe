/** The JavaScript string operations the components rely on: `trim`, the regular-expression class
    `\s`, `split` on one character, `join`, `includes`, `startsWith`, `substring(0, n)` and the
    decimal rendering of a count inside a template literal. */
module Text {
  import opened Seqs

  /** ECMAScript WhiteSpace and LineTerminator code points: the set `trim` strips and `\s` matches. */
  predicate IsWhitespace(c: char) {
    || c == '\t' || c == '\n' || c == '\U{000B}' || c == '\U{000C}' || c == '\r' || c == ' '
    || c == '\U{00A0}' || c == '\U{1680}' || ('\U{2000}' <= c <= '\U{200A}')
    || c == '\U{2028}' || c == '\U{2029}' || c == '\U{202F}' || c == '\U{205F}'
    || c == '\U{3000}' || c == '\U{FEFF}'
  }

  predicate AllWhitespace(s: string) {
    forall k :: 0 <= k < |s| ==> IsWhitespace(s[k])
  }

  predicate NoWhitespace(s: string) {
    forall k :: 0 <= k < |s| ==> !IsWhitespace(s[k])
  }

  /** No whitespace at either end: what `trim` leaves. */
  predicate IsTrimmed(s: string) {
    |s| > 0 ==> !IsWhitespace(s[0]) && !IsWhitespace(s[|s| - 1])
  }

  /** `s` with its leading whitespace removed. */
  function TrimStart(s: string): (r: string)
    ensures |r| <= |s| && r == s[|s| - |r|..]
    ensures AllWhitespace(s[..|s| - |r|])
    ensures |r| > 0 ==> !IsWhitespace(r[0])
    decreases |s|
  {
    if |s| > 0 && IsWhitespace(s[0]) then
      var r := TrimStart(s[1..]);
      assert s[..|s| - |r|] == [s[0]] + s[1..][..|s| - 1 - |r|];
      r
    else s
  }

  /** `s` with its trailing whitespace removed. */
  function TrimEnd(s: string): (r: string)
    ensures |r| <= |s| && r == s[..|r|]
    ensures AllWhitespace(s[|r|..])
    ensures |r| > 0 ==> !IsWhitespace(r[|r| - 1])
    decreases |s|
  {
    if |s| > 0 && IsWhitespace(s[|s| - 1]) then
      var r := TrimEnd(s[..|s| - 1]);
      assert s[|r|..] == s[..|s| - 1][|r|..] + [s[|s| - 1]];
      r
    else s
  }

  /** The number of leading whitespace characters `trim` removes. */
  function TrimOffset(s: string): (n: nat)
    ensures n <= |s|
  {
    |s| - |TrimStart(s)|
  }

  /** `String.prototype.trim`: `s` with whitespace stripped from both ends. */
  function Trim(s: string): (r: string)
    ensures |r| <= |s|
    ensures IsTrimmed(r)
    ensures r == "" <==> AllWhitespace(s)
  {
    var t := TrimStart(s);
    var r := TrimEnd(t);
    assert |r| > 0 ==> r[0] == t[0];
    TrimStartEmpty(s);
    TrimEndEmpty(t);
    r
  }

  /** What `trim` removes is whitespace: the result is the infix of `s` that starts after the
      leading whitespace, and everything after it is whitespace too. */
  lemma TrimRemovesOnlyWhitespace(s: string)
    ensures var r := Trim(s); var i := TrimOffset(s);
      && i + |r| <= |s| && r == s[i..i + |r|]
      && AllWhitespace(s[..i]) && AllWhitespace(s[i + |r|..])
  {
    StripBothEnds(s, TrimStart(s), Trim(s), TrimOffset(s));
  }

  /** Stripping whitespace off the front of `s` and then off the back of what is left leaves an
      infix of `s` with whitespace on both sides. */
  lemma StripBothEnds(s: string, t: string, r: string, i: nat)
    requires i <= |s| && t == s[i..] && AllWhitespace(s[..i])
    requires |r| <= |t| && r == t[..|r|] && AllWhitespace(t[|r|..])
    ensures i + |r| <= |s| && r == s[i..i + |r|]
    ensures AllWhitespace(s[..i]) && AllWhitespace(s[i + |r|..])
  {
    assert t[|r|..] == s[i + |r|..];
  }

  lemma TrimStartEmpty(s: string)
    ensures TrimStart(s) == "" <==> AllWhitespace(s)
  {
    var t := TrimStart(s);
    var i := |s| - |t|;
    if t == "" {
      assert s[..i] == s;
    } else {
      assert s[i] == t[0];
    }
  }

  lemma TrimEndEmpty(s: string)
    ensures TrimEnd(s) == "" <==> AllWhitespace(s)
  {
    var r := TrimEnd(s);
    if r == "" {
      assert s[|r|..] == s;
    } else {
      assert s[|r| - 1] == r[|r| - 1];
    }
  }

  /** A string with no whitespace at either end is its own trim. */
  lemma TrimOfTrimmed(s: string)
    requires IsTrimmed(s)
    ensures Trim(s) == s
  {
  }

  /** Trimming twice is trimming once. */
  lemma TrimIdempotent(s: string)
    ensures Trim(Trim(s)) == Trim(s)
  {
    TrimOfTrimmed(Trim(s));
  }

  function Indent(s: string): string {
    " " + s
  }

  /** One space in front of a trimmed string is stripped again by `trim`. */
  lemma TrimIndented(s: string)
    requires IsTrimmed(s)
    ensures Trim(Indent(s)) == s
  {
    var t := Indent(s);
    assert IsWhitespace(t[0]);
    assert t[1..] == s;
    assert TrimStart(t) == TrimStart(s);
    assert TrimStart(s) == s by {
      if |s| > 0 {
        assert !IsWhitespace(s[0]);
      }
    }
    assert TrimEnd(s) == s by {
      if |s| > 0 {
        assert !IsWhitespace(s[|s| - 1]);
      }
    }
  }

  /** Position of the first occurrence of `c` in `s`. */
  function IndexOf(s: string, c: char): (i: nat)
    requires c in s
    ensures i < |s| && s[i] == c && c !in s[..i]
    decreases |s|
  {
    if s[0] == c then 0
    else
      var j := IndexOf(s[1..], c);
      assert s[1..][..j] == s[1..j + 1];
      assert s[..j + 1] == [s[0]] + s[1..j + 1];
      j + 1
  }

  /** The first occurrence of `c` is at `i` when `c` is at `i` and nowhere before. */
  lemma IndexOfIsFirst(s: string, c: char, i: nat)
    requires i < |s| && s[i] == c && c !in s[..i]
    ensures IndexOf(s, c) == i
  {
  }

  /** `parts` separated by `sep`: `Array.prototype.join(sep)`. */
  function Join(parts: seq<string>, sep: string): string
    decreases |parts|
  {
    if |parts| == 0 then ""
    else if |parts| == 1 then parts[0]
    else parts[0] + sep + Join(parts[1..], sep)
  }

  /** `String.prototype.split` on a one-character separator: the pieces between the separators,
      empty pieces included, and always at least one piece. */
  function Split(s: string, sep: char): (r: seq<string>)
    ensures |r| >= 1
    ensures forall k :: 0 <= k < |r| ==> sep !in r[k]
    ensures Join(r, [sep]) == s
    decreases |s|
  {
    if sep !in s then [s]
    else
      var i := IndexOf(s, sep);
      var rest := Split(s[i + 1..], sep);
      var r := [s[..i]] + rest;
      assert r[1..] == rest;
      assert s == s[..i] + [sep] + s[i + 1..];
      r
  }

  /** Splitting a join recovers the pieces, provided none of them contains the separator. */
  lemma {:induction false} SplitJoin(parts: seq<string>, sep: char)
    requires |parts| >= 1
    requires forall k :: 0 <= k < |parts| ==> sep !in parts[k]
    ensures Split(Join(parts, [sep]), sep) == parts
    decreases |parts|
  {
    if |parts| > 1 {
      var p := parts[0];
      var tail := Join(parts[1..], [sep]);
      var s := Join(parts, [sep]);
      assert s == p + ([sep] + tail);
      assert s[..|p|] == p;
      assert s[|p| + 1..] == tail;
      SplitAt(s, sep, |p|);
      SplitJoin(parts[1..], sep);
      assert parts == [p] + parts[1..];
    }
  }

  /** Splitting at the first separator: the piece before it, then the split of the rest. */
  lemma SplitAt(s: string, sep: char, i: nat)
    requires i < |s| && s[i] == sep && sep !in s[..i]
    ensures Split(s, sep) == [s[..i]] + Split(s[i + 1..], sep)
  {
    IndexOfIsFirst(s, sep, i);
  }

  /** Joining with `", "` is joining with `","` once every piece after the first is indented. */
  lemma {:induction false} JoinCommaSpace(parts: seq<string>)
    requires |parts| >= 1
    ensures Join(parts, ", ") == Join([parts[0]] + Map(Indent, parts[1..]), ",")
    decreases |parts|
  {
    if |parts| > 1 {
      JoinIndented(parts[1..]);
      var spaced := [parts[0]] + Map(Indent, parts[1..]);
      assert spaced[1..] == Map(Indent, parts[1..]);
    }
  }

  lemma {:induction false} JoinIndented(parts: seq<string>)
    requires |parts| >= 1
    ensures " " + Join(parts, ", ") == Join(Map(Indent, parts), ",")
    decreases |parts|
  {
    var m := Map(Indent, parts);
    if |parts| > 1 {
      JoinIndented(parts[1..]);
      assert m[1..] == Map(Indent, parts[1..]);
    }
  }

  /** `String.prototype.startsWith`. */
  predicate StartsWith(s: string, prefix: string) {
    |prefix| <= |s| && s[..|prefix|] == prefix
  }

  /** `String.prototype.includes` for a substring. */
  predicate Contains(s: string, t: string)
    decreases |s|
  {
    StartsWith(s, t) || (|s| > 0 && Contains(s[1..], t))
  }

  /** A string that contains `t` is at least as long as `t`. */
  lemma {:induction false} ContainsFits(s: string, t: string)
    requires Contains(s, t)
    ensures |t| <= |s|
    decreases |s|
  {
    if !StartsWith(s, t) {
      ContainsFits(s[1..], t);
    }
  }

  /** `String.prototype.substring(0, n)`: the first `n` characters, or all of `s` when shorter. */
  function Prefix(s: string, n: nat): (r: string)
    ensures |r| <= n && StartsWith(s, r)
    ensures |s| <= n ==> r == s
    ensures |s| > n ==> |r| == n
  {
    if |s| <= n then s else s[..n]
  }

  predicate IsDigit(c: char) {
    '0' <= c <= '9'
  }

  /** The number a string of decimal digits denotes. */
  function DecimalValue(s: string): nat
    requires forall k :: 0 <= k < |s| ==> IsDigit(s[k])
    decreases |s|
  {
    if |s| == 0 then 0
    else
      assert IsDigit(s[|s| - 1]);
      DecimalValue(s[..|s| - 1]) * 10 + (s[|s| - 1] as int - '0' as int)
  }

  /** The decimal text of `n` a template literal produces: digits only, no leading zero, and
      denoting `n`. */
  function NatToString(n: nat): (r: string)
    ensures |r| > 0 && forall k :: 0 <= k < |r| ==> IsDigit(r[k])
    ensures |r| > 1 ==> r[0] != '0'
    ensures DecimalValue(r) == n
    decreases n
  {
    var last := [('0' as int + n % 10) as char];
    if n < 10 then last
    else
      var front := NatToString(n / 10);
      var r := front + last;
      assert r[..|r| - 1] == front;
      r
  }
}
