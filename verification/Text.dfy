/** Strings as the source treats them: code-point order, trimming, ASCII case folding, splitting. */
module Text {
  import opened Wrappers

  // ---------- order ----------

  /** Code-point lexicographic order: what `str::cmp` and the "C" collation give. */
  predicate Less(a: string, b: string) {
    if b == "" then false
    else if a == "" then true
    else a[0] < b[0] || (a[0] == b[0] && Less(a[1..], b[1..]))
  }

  lemma {:induction false} LessTotal(a: string, b: string)
    ensures Less(a, b) || Less(b, a) || a == b
    ensures !(Less(a, b) && Less(b, a))
    ensures a == b ==> !Less(a, b)
  {
    if a != "" && b != "" {
      LessTotal(a[1..], b[1..]);
      if a[0] == b[0] && a[1..] == b[1..] {
        assert a == [a[0]] + a[1..] == b;
      }
    }
  }

  /** `a` ends, or holds the smaller character, where the two first differ. */
  ghost predicate DifferAt(a: string, b: string, n: nat) {
    n <= |a| && n < |b| && a[..n] == b[..n] && (n == |a| || a[n] < b[n])
  }

  lemma {:induction false} LessIff(a: string, b: string)
    ensures Less(a, b) <==> exists n: nat :: DifferAt(a, b, n)
  {
    if b == "" {
    } else if a == "" {
      assert DifferAt(a, b, 0);
    } else {
      LessIff(a[1..], b[1..]);
      if a[0] < b[0] {
        assert DifferAt(a, b, 0);
      } else if a[0] == b[0] && Less(a[1..], b[1..]) {
        var n: nat :| DifferAt(a[1..], b[1..], n);
        assert a[..n + 1] == [a[0]] + a[1..][..n] == [b[0]] + b[1..][..n] == b[..n + 1];
        assert DifferAt(a, b, n + 1);
      } else if exists n: nat :: DifferAt(a, b, n) {
        var n: nat :| DifferAt(a, b, n);
        if n > 0 {
          assert a[0] == a[..n][0] == b[..n][0] == b[0];
          assert a[1..][..n - 1] == a[..n][1..] == b[..n][1..] == b[1..][..n - 1];
          assert DifferAt(a[1..], b[1..], n - 1);
        }
      }
    }
  }

  lemma {:induction false} LessTransitive(a: string, b: string, c: string)
    requires Less(a, b) && Less(b, c)
    ensures Less(a, c)
  {
    if a != "" && a[0] == b[0] == c[0] {
      LessTransitive(a[1..], b[1..], c[1..]);
    }
  }

  // ---------- trimming ----------

  /** Unicode White_Space, the class `str::trim` removes. */
  predicate IsWhitespace(c: char) {
    var n := c as int;
    || 0x09 <= n <= 0x0D || n == 0x20 || n == 0x85 || n == 0xA0 || n == 0x1680
    || 0x2000 <= n <= 0x200A || n == 0x2028 || n == 0x2029 || n == 0x202F || n == 0x205F || n == 0x3000
  }

  function TrimStart(s: string): string {
    if s != "" && IsWhitespace(s[0]) then TrimStart(s[1..]) else s
  }

  function TrimEnd(s: string): string {
    if s != "" && IsWhitespace(s[|s| - 1]) then TrimEnd(s[..|s| - 1]) else s
  }

  function Trim(s: string): string {
    TrimEnd(TrimStart(s))
  }

  ghost predicate NoOuterWhitespace(s: string) {
    s != "" ==> !IsWhitespace(s[0]) && !IsWhitespace(s[|s| - 1])
  }

  /** A text survives trimming exactly when it has no outer whitespace. */
  lemma TrimIdentity(s: string)
    ensures Trim(s) == s <==> NoOuterWhitespace(s)
  {
    TrimStartShrinks(s);
    TrimEndShrinks(TrimStart(s));
    if s != "" && !IsWhitespace(s[0]) && IsWhitespace(s[|s| - 1]) {
      TrimEndShrinks(s[..|s| - 1]);
    }
    if s != "" && IsWhitespace(s[0]) {
      TrimStartShrinks(s[1..]);
    }
  }

  lemma TrimStartShrinks(s: string)
    ensures |TrimStart(s)| <= |s|
  {
  }

  lemma TrimEndShrinks(s: string)
    ensures |TrimEnd(s)| <= |s|
  {
  }

  lemma {:induction false} TrimEndKeepsHead(s: string)
    requires s != "" && !IsWhitespace(s[0])
    ensures TrimEnd(s) != "" && TrimEnd(s)[0] == s[0]
    ensures !IsWhitespace(TrimEnd(s)[|TrimEnd(s)| - 1])
  {
    if IsWhitespace(s[|s| - 1]) {
      TrimEndKeepsHead(s[..|s| - 1]);
    }
  }

  lemma {:induction false} TrimStartStops(s: string)
    ensures TrimStart(s) != "" ==> !IsWhitespace(TrimStart(s)[0])
  {
    if s != "" && IsWhitespace(s[0]) {
      TrimStartStops(s[1..]);
    }
  }

  lemma TrimIdempotent(s: string)
    ensures Trim(Trim(s)) == Trim(s)
    ensures NoOuterWhitespace(Trim(s))
  {
    TrimStartStops(s);
    if TrimStart(s) != "" {
      TrimEndKeepsHead(TrimStart(s));
    }
    TrimIdentity(Trim(s));
  }

  ghost predicate Blank(s: string) {
    forall i | 0 <= i < |s| :: IsWhitespace(s[i])
  }

  ghost predicate Encloses(s: string, before: string, t: string, after: string) {
    s == before + t + after && Blank(before) && Blank(after)
  }

  /** `t` is `s` without the whitespace around it. */
  ghost predicate IsTrimmed(s: string, t: string) {
    NoOuterWhitespace(t) && exists before, after :: Encloses(s, before, t, after)
  }

  lemma {:induction false} TrimStartDrops(before: string, rest: string)
    requires Blank(before)
    ensures TrimStart(before + rest) == TrimStart(rest)
  {
    if before == "" {
      assert before + rest == rest;
    } else {
      assert (before + rest)[1..] == before[1..] + rest;
      TrimStartDrops(before[1..], rest);
    }
  }

  lemma {:induction false} TrimEndDrops(rest: string, after: string)
    requires Blank(after)
    ensures TrimEnd(rest + after) == TrimEnd(rest)
  {
    if after == "" {
      assert rest + after == rest;
    } else {
      var s := rest + after;
      assert s[..|s| - 1] == rest + after[..|after| - 1];
      TrimEndDrops(rest, after[..|after| - 1]);
    }
  }

  lemma {:induction false} TrimStartSplits(s: string) returns (before: string)
    ensures s == before + TrimStart(s) && Blank(before)
  {
    before := "";
    if s != "" && IsWhitespace(s[0]) {
      var b := TrimStartSplits(s[1..]);
      before := [s[0]] + b;
    }
  }

  lemma {:induction false} TrimEndSplits(s: string) returns (after: string)
    ensures s == TrimEnd(s) + after && Blank(after)
  {
    after := "";
    if s != "" && IsWhitespace(s[|s| - 1]) {
      var a := TrimEndSplits(s[..|s| - 1]);
      after := a + [s[|s| - 1]];
    }
  }

  lemma TrimIs(s: string, t: string)
    ensures IsTrimmed(s, t) <==> t == Trim(s)
  {
    if IsTrimmed(s, t) {
      var before, after :| Encloses(s, before, t, after);
      assert s == before + (t + after);
      TrimStartDrops(before, t + after);
      if t == "" {
        assert t + after == after + "";
        TrimStartDrops(after, "");
      } else {
        TrimEndDrops(t, after);
      }
    }
    TrimIdempotent(s);
    var before := TrimStartSplits(s);
    var after := TrimEndSplits(TrimStart(s));
    assert before + (Trim(s) + after) == before + Trim(s) + after;
    assert Encloses(s, before, Trim(s), after);
  }

  // ---------- ASCII case ----------

  predicate IsUpper(c: char) { 'A' <= c <= 'Z' }
  predicate IsLower(c: char) { 'a' <= c <= 'z' }
  predicate IsAlpha(c: char) { IsUpper(c) || IsLower(c) }
  predicate IsDigit(c: char) { '0' <= c <= '9' }

  function LowerChar(c: char): char {
    if IsUpper(c) then (c as int + 32) as char else c
  }

  function Lower(s: string): string {
    seq(|s|, i requires 0 <= i < |s| => LowerChar(s[i]))
  }

  function UpperChar(c: char): char {
    if IsLower(c) then (c as int - 32) as char else c
  }

  function Upper(s: string): string {
    seq(|s|, i requires 0 <= i < |s| => UpperChar(s[i]))
  }

  /** `eq_ignore_ascii_case` */
  predicate EqFold(a: string, b: string) {
    Lower(a) == Lower(b)
  }

  /** One letter in two cases, or one character. */
  predicate SameLetter(c: char, d: char) {
    c == d || ('A' <= c <= 'Z' && d as int - c as int == 32) || ('A' <= d <= 'Z' && c as int - d as int == 32)
  }

  predicate SameIgnoringCase(a: string, b: string) {
    |a| == |b| && forall i | 0 <= i < |a| :: SameLetter(a[i], b[i])
  }

  lemma LowerIs(s: string, t: string)
    ensures t == Lower(s) <==> SameIgnoringCase(s, t) && forall i | 0 <= i < |t| :: !IsUpper(t[i])
  {
  }

  lemma UpperIs(s: string, t: string)
    ensures t == Upper(s) <==> SameIgnoringCase(s, t) && forall i | 0 <= i < |t| :: !IsLower(t[i])
  {
  }

  lemma EqFoldIs(a: string, b: string)
    ensures EqFold(a, b) <==> SameIgnoringCase(a, b)
  {
    if EqFold(a, b) {
      assert forall i | 0 <= i < |a| :: LowerChar(a[i]) == Lower(a)[i] == Lower(b)[i] == LowerChar(b[i]);
    }
  }

  // ---------- searching and splitting ----------

  /** `split_once`: the text before and after the first `c`. */
  function SplitOnce(s: string, c: char): Option<(string, string)> {
    if s == "" then None
    else if s[0] == c then Some(("", s[1..]))
    else
      match SplitOnce(s[1..], c)
      case None => None
      case Some((before, after)) => Some(([s[0]] + before, after))
  }

  lemma {:induction false} SplitOnceJoin(a: string, c: char, b: string)
    requires c !in a
    ensures SplitOnce(a + [c] + b, c) == Some((a, b))
  {
    var s := a + [c] + b;
    if a != "" {
      SplitOnceJoin(a[1..], c, b);
      assert s[1..] == a[1..] + [c] + b;
      assert [a[0]] + a[1..] == a;
    } else {
      assert s[1..] == b;
    }
  }

  lemma {:induction false} SplitOnceSound(s: string, c: char)
    ensures SplitOnce(s, c) == None <==> c !in s
    ensures SplitOnce(s, c).Some? ==>
              var (a, b) := SplitOnce(s, c).value; c !in a && s == a + [c] + b
  {
    if s != "" && s[0] != c {
      SplitOnceSound(s[1..], c);
      assert s == [s[0]] + s[1..];
    }
  }

  /** Does `s` start with `p`? */
  predicate StartsWith(s: string, p: string) {
    |p| <= |s| && s[..|p|] == p
  }

  predicate EndsWith(s: string, p: string) {
    |p| <= |s| && s[|s| - |p|..] == p
  }
}
