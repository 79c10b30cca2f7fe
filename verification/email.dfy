/** The invite-address check of the scheduling form, the regular expression
    `^[^\s@]+@[^\s@]+\.[^\s@]+$`, written two ways and proved to agree. */
module Email {
  import opened Text

  /** A run the class `[^\s@]+` matches: non-empty, no whitespace, no `@`. */
  ghost predicate PlainRun(t: string) {
    |t| > 0 && forall k :: 0 <= k < |t| ==> !IsWhitespace(t[k]) && t[k] != '@'
  }

  /** The regular expression read literally: `s` splits as local `@` host `.` suffix, each part a
      plain run, at some `@` position `i` and some `.` position `j`. */
  ghost predicate MatchesEmailRegex(s: string) {
    exists i, j :: 0 < i && i + 1 < j < |s| - 1 && s[i] == '@' && s[j] == '.'
      && PlainRun(s[..i]) && PlainRun(s[i + 1..j]) && PlainRun(s[j + 1..])
  }

  /** The domain contains a `.` that is neither its first nor its last character. */
  predicate HasInnerDot(d: string) {
    |d| >= 2 && '.' in d[1..|d| - 1]
  }

  /** The check as a property of the string: no whitespace, exactly one `@` with a non-empty
      part before it, and a domain after it with an inner dot. */
  predicate IsEmail(s: string) {
    && NoWhitespace(s)
    && '@' in s
    && var at := IndexOf(s, '@');
       && 0 < at
       && '@' !in s[at + 1..]
       && HasInnerDot(s[at + 1..])
  }

  lemma PlainRunFacts(t: string)
    requires PlainRun(t)
    ensures NoWhitespace(t) && '@' !in t
  {
  }

  lemma NoWhitespaceConcat(a: string, b: string)
    requires NoWhitespace(a) && NoWhitespace(b)
    ensures NoWhitespace(a + b)
  {
    forall k | 0 <= k < |a + b|
      ensures !IsWhitespace((a + b)[k])
    {
      if k >= |a| {
        assert (a + b)[k] == b[k - |a|];
      }
    }
  }

  /** Three plain runs joined by `@` and `.` pass the check. */
  lemma EmailFromParts(local: string, host: string, suffix: string)
    requires PlainRun(local) && PlainRun(host) && PlainRun(suffix)
    ensures IsEmail(local + ['@'] + host + ['.'] + suffix)
  {
    PlainRunFacts(local);
    PlainRunFacts(host);
    PlainRunFacts(suffix);
    var d := host + ['.'] + suffix;
    var s := local + ['@'] + d;
    assert local + ['@'] + host + ['.'] + suffix == s;
    NoWhitespaceConcat(host, ['.']);
    NoWhitespaceConcat(host + ['.'], suffix);
    NoWhitespaceConcat(local, ['@']);
    NoWhitespaceConcat(local + ['@'], d);
    assert s[..|local|] == local;
    IndexOfIsFirst(s, '@', |local|);
    assert s[|local| + 1..] == d;
    assert '@' !in d;
    assert d[1..|d| - 1][|host| - 1] == '.';
  }

  lemma RegexImpliesEmail(s: string)
    requires MatchesEmailRegex(s)
    ensures IsEmail(s)
  {
    var i, j :| 0 < i && i + 1 < j < |s| - 1 && s[i] == '@' && s[j] == '.'
      && PlainRun(s[..i]) && PlainRun(s[i + 1..j]) && PlainRun(s[j + 1..]);
    var local, host, suffix := s[..i], s[i + 1..j], s[j + 1..];
    assert s == local + ['@'] + host + ['.'] + suffix by {
      Reassemble(s, i, j);
    }
    EmailFromParts(local, host, suffix);
  }

  lemma Reassemble(s: string, i: nat, j: nat)
    requires i < j < |s| && s[i] == '@' && s[j] == '.'
    ensures s == s[..i] + ['@'] + s[i + 1..j] + ['.'] + s[j + 1..]
  {
  }

  lemma EmailImpliesRegex(s: string)
    requires IsEmail(s)
    ensures MatchesEmailRegex(s)
  {
    var i := IndexOf(s, '@');
    var d := s[i + 1..];
    var q :| 0 <= q < |d| - 2 && d[1..|d| - 1][q] == '.';
    var j := i + 2 + q;
    assert d[1..|d| - 1][q] == d[q + 1];
    assert d[q + 1] == s[j];
    assert s[0..i] == s[..i];
    PlainRunOfSlice(s, 0, i);
    NoAtInSlice(s, i + 1, i + 1, j);
    PlainRunOfSlice(s, i + 1, j);
    NoAtInSlice(s, i + 1, j + 1, |s|);
    PlainRunOfSlice(s, j + 1, |s|);
    assert s[j + 1..|s|] == s[j + 1..];
    assert 0 < i && i + 1 < j < |s| - 1 && s[i] == '@' && s[j] == '.'
      && PlainRun(s[..i]) && PlainRun(s[i + 1..j]) && PlainRun(s[j + 1..]);
  }

  /** A non-empty slice of a blank-free string that holds no `@` is a plain run. */
  lemma PlainRunOfSlice(s: string, lo: nat, hi: nat)
    requires lo < hi <= |s| && NoWhitespace(s) && '@' !in s[lo..hi]
    ensures PlainRun(s[lo..hi])
  {
    var t := s[lo..hi];
    forall k | 0 <= k < |t|
      ensures !IsWhitespace(t[k]) && t[k] != '@'
    {
      assert t[k] == s[lo + k];
      assert t[k] in t;
    }
  }

  /** A slice inside a stretch free of `@` is free of `@`. */
  lemma NoAtInSlice(s: string, a: nat, lo: nat, hi: nat)
    requires a <= lo <= hi <= |s| && '@' !in s[a..]
    ensures '@' !in s[lo..hi]
  {
    forall k | 0 <= k < hi - lo
      ensures s[lo..hi][k] != '@'
    {
      assert s[lo..hi][k] == s[a..][lo - a + k];
    }
  }

  /** The string predicate accepts exactly the strings the regular expression matches. */
  lemma EmailMatchesRegex(s: string)
    ensures IsEmail(s) <==> MatchesEmailRegex(s)
  {
    if IsEmail(s) {
      EmailImpliesRegex(s);
    }
    if MatchesEmailRegex(s) {
      RegexImpliesEmail(s);
    }
  }
}
