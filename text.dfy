/** String operations the core relies on: JavaScript's and Java's `trim`,
    `split(' ')` and `join(' ')`, ASCII case folding, SQL `LIKE` matching and
    the decimal rendering of a Java `long`.  Strings are sequences of Unicode
    scalar values. */
module Text {

  /** The characters JavaScript's `String.prototype.trim` removes; the
      regular-expression class `\s` matches the same set (ECMAScript
      WhiteSpace and LineTerminator). */
  predicate IsJsSpace(c: char) {
    c == '\t' || c == '\n' || c == '\U{000B}' || c == '\U{000C}' || c == '\r' || c == ' '
    || c == '\U{00A0}' || c == '\U{1680}' || ('\U{2000}' <= c <= '\U{200A}')
    || c == '\U{2028}' || c == '\U{2029}' || c == '\U{202F}' || c == '\U{205F}'
    || c == '\U{3000}' || c == '\U{FEFF}'
  }

  /** The characters Java's `String.trim` removes: every code point up to U+0020. */
  predicate IsJavaSpace(c: char) {
    c <= ' '
  }

  ghost predicate AllSpace(s: string, ws: char -> bool) {
    forall i :: 0 <= i < |s| ==> ws(s[i])
  }

  /** `s` without its leading run of `ws` characters. */
  function TrimStart(s: string, ws: char -> bool): (r: string)
    ensures |r| <= |s| && r == s[|s| - |r|..]
    ensures AllSpace(s[..|s| - |r|], ws)
    ensures r == [] || !ws(r[0])
  {
    if s != [] && ws(s[0]) then TrimStart(s[1..], ws) else s
  }

  /** `s` without its trailing run of `ws` characters. */
  function TrimEnd(s: string, ws: char -> bool): (r: string)
    ensures |r| <= |s| && r == s[..|r|]
    ensures AllSpace(s[|r|..], ws)
    ensures r == [] || !ws(r[|r| - 1])
  {
    if s != [] && ws(s[|s| - 1]) then TrimEnd(s[..|s| - 1], ws) else s
  }

  /** `s` without leading and trailing `ws` characters. */
  function Trim(s: string, ws: char -> bool): (r: string)
    ensures |r| <= |s|
    ensures r == [] <==> AllSpace(s, ws)
    ensures r != [] ==> !ws(r[0]) && !ws(r[|r| - 1])
  {
    var t := TrimStart(s, ws);
    var r := TrimEnd(t, ws);
    assert r == [] ==> AllSpace(s, ws) by {
      if r == [] {
        assert s == s[..|s| - |t|] + t;
        assert AllSpace(t, ws) by { assert t[|r|..] == t; }
      }
    }
    r
  }

  lemma {:induction false} TrimStartSkipsSpaces(a: string, x: string, ws: char -> bool)
    requires AllSpace(a, ws)
    ensures TrimStart(a + x, ws) == TrimStart(x, ws)
  {
    if a == [] {
      assert a + x == x;
    } else {
      assert (a + x)[0] == a[0] && (a + x)[1..] == a[1..] + x;
      TrimStartSkipsSpaces(a[1..], x, ws);
    }
  }

  lemma {:induction false} TrimEndSkipsSpaces(x: string, b: string, ws: char -> bool)
    requires AllSpace(b, ws)
    ensures TrimEnd(x + b, ws) == TrimEnd(x, ws)
  {
    if b == [] {
      assert x + b == x;
    } else {
      assert (x + b)[|x + b| - 1] == b[|b| - 1];
      assert (x + b)[..|x + b| - 1] == x + b[..|b| - 1];
      TrimEndSkipsSpaces(x, b[..|b| - 1], ws);
    }
  }

  /** Trim removes exactly the surrounding spaces: whatever is wrapped in runs
      of `ws` characters comes back unchanged, provided it neither starts nor
      ends with one. */
  lemma TrimRemovesSurroundingSpaces(a: string, m: string, b: string, ws: char -> bool)
    requires AllSpace(a, ws) && AllSpace(b, ws)
    requires m == [] || (!ws(m[0]) && !ws(m[|m| - 1]))
    ensures Trim(a + m + b, ws) == m
  {
    assert a + m + b == a + (m + b);
    TrimStartSkipsSpaces(a, m + b, ws);
    if m == [] {
      assert m + b == b;
      TrimStartSkipsSpaces(b, [], ws);
      assert b + [] == b;
    } else {
      assert TrimStart(m + b, ws) == m + b;
      TrimEndSkipsSpaces(m, b, ws);
    }
  }

  /** JavaScript's `String.prototype.trim`. */
  function JsTrim(s: string): string {
    Trim(s, IsJsSpace)
  }

  /** Java's `String.trim`. */
  function JavaTrim(s: string): string {
    Trim(s, IsJavaSpace)
  }

  /** ASCII lower-casing, the only case folding done by a non-Unicode
      case-insensitive JavaScript regular expression on ASCII patterns. */
  function LowerChar(c: char): char {
    if 'A' <= c <= 'Z' then (c as int + 32) as char else c
  }

  function Lower(s: string): (r: string)
    ensures |r| == |s|
    ensures forall i :: 0 <= i < |s| ==> r[i] == LowerChar(s[i])
  {
    if s == [] then [] else [LowerChar(s[0])] + Lower(s[1..])
  }

  /** JavaScript's `s.split(sep)` for a one-character separator: the pieces
      between occurrences of `sep`; the empty string yields one empty piece. */
  function Split(s: string, sep: char): (parts: seq<string>)
    ensures |parts| >= 1
    ensures forall k :: 0 <= k < |parts| ==> sep !in parts[k]
  {
    if s == [] then [[]]
    else
      var rest := Split(s[1..], sep);
      if s[0] == sep then [[]] + rest
      else [[s[0]] + rest[0]] + rest[1..]
  }

  /** JavaScript's `parts.join(sep)`. */
  function Join(parts: seq<string>, sep: char): string {
    if parts == [] then []
    else if |parts| == 1 then parts[0]
    else parts[0] + [sep] + Join(parts[1..], sep)
  }

  /** Joining the pieces of a split gives back the original string. */
  lemma {:induction false} JoinSplit(s: string, sep: char)
    ensures Join(Split(s, sep), sep) == s
  {
    if s != [] {
      var rest := Split(s[1..], sep);
      JoinSplit(s[1..], sep);
      if s[0] == sep {
        assert Split(s, sep)[1..] == rest;
      } else if |rest| == 1 {
        assert Split(s, sep) == [[s[0]] + rest[0]];
        assert [s[0]] + s[1..] == s;
      } else {
        var parts := Split(s, sep);
        assert parts[1..] == rest[1..];
        calc {
          Join(parts, sep);
          parts[0] + [sep] + Join(rest[1..], sep);
          [s[0]] + (rest[0] + [sep] + Join(rest[1..], sep));
          [s[0]] + Join(rest, sep);
          [s[0]] + s[1..];
        }
      }
    }
  }

  lemma {:induction false} SplitAfterWord(w: string, t: string, sep: char)
    requires sep !in w
    ensures Split(w + t, sep) == [w + Split(t, sep)[0]] + Split(t, sep)[1..]
  {
    if w != [] {
      assert (w + t)[1..] == w[1..] + t;
      SplitAfterWord(w[1..], t, sep);
      assert [w[0]] + (w[1..] + Split(t, sep)[0]) == w + Split(t, sep)[0];
    } else {
      var parts := Split(t, sep);
      assert w + t == t && w + parts[0] == parts[0];
      assert [parts[0]] + parts[1..] == parts;
    }
  }

  /** Splitting a join of separator-free pieces gives back the pieces. */
  lemma {:induction false} SplitJoin(parts: seq<string>, sep: char)
    requires |parts| >= 1
    requires forall k :: 0 <= k < |parts| ==> sep !in parts[k]
    ensures Split(Join(parts, sep), sep) == parts
  {
    if |parts| == 1 {
      SplitAfterWord(parts[0], [], sep);
      assert parts[0] + [] == parts[0];
    } else {
      var tail := Join(parts[1..], sep);
      SplitJoin(parts[1..], sep);
      assert parts[0] + [sep] + tail == parts[0] + ([sep] + tail);
      SplitAfterWord(parts[0], [sep] + tail, sep);
      assert ([sep] + tail)[0] == sep && ([sep] + tail)[1..] == tail;
      assert Split([sep] + tail, sep) == [[]] + parts[1..];
      assert parts[0] + [] == parts[0];
      assert parts == [parts[0]] + parts[1..];
    }
  }

  /** Joining the first `k` pieces gives a prefix of joining them all. */
  lemma {:induction false} JoinTakeIsPrefix(parts: seq<string>, k: nat, sep: char)
    requires 1 <= k <= |parts|
    ensures Join(parts[..k], sep) <= Join(parts, sep)
  {
    if k < |parts| {
      assert Join(parts, sep) == parts[0] + ([sep] + Join(parts[1..], sep));
      if k == 1 {
        assert parts[..1] == [parts[0]];
      } else {
        JoinTakeIsPrefix(parts[1..], k - 1, sep);
        assert parts[..k][1..] == parts[1..][..k - 1];
        assert Join(parts[..k], sep) == parts[0] + ([sep] + Join(parts[1..][..k - 1], sep));
      }
    } else {
      assert parts[..k] == parts;
    }
  }

  /** `w` occurs in `s` starting at index `i`. */
  ghost predicate OccursAt(s: string, w: string, i: int) {
    0 <= i && i + |w| <= |s| && s[i..i + |w|] == w
  }

  ghost predicate Contains(s: string, w: string) {
    exists i :: OccursAt(s, w, i)
  }

  /** SQL `LIKE` without an escape character: `%` matches any run of
      characters, `_` exactly one character, anything else itself. */
  predicate Like(s: string, p: string)
    decreases |p|, |s|
  {
    if p == [] then s == []
    else if p[0] == '%' then Like(s, p[1..]) || (s != [] && Like(s[1..], p))
    else s != [] && (p[0] == '_' || p[0] == s[0]) && Like(s[1..], p[1..])
  }

  predicate NoWildcards(w: string) {
    '%' !in w && '_' !in w
  }

  lemma {:induction false} LikePercentMatchesAll(s: string)
    ensures Like(s, "%")
  {
    if s != [] {
      LikePercentMatchesAll(s[1..]);
    }
  }

  lemma {:induction false} LikeTrailingPercent(s: string, w: string)
    requires NoWildcards(w)
    ensures Like(s, w + "%") <==> w <= s
  {
    if w == [] {
      assert w + "%" == "%";
      LikePercentMatchesAll(s);
    } else {
      assert (w + "%")[1..] == w[1..] + "%";
      if s != [] {
        LikeTrailingPercent(s[1..], w[1..]);
        assert w <= s <==> w[0] == s[0] && w[1..] <= s[1..];
      }
    }
  }

  lemma {:induction false} LikeLeadingPercent(s: string, q: string)
    ensures Like(s, "%" + q) <==> exists i :: 0 <= i <= |s| && Like(s[i..], q)
  {
    assert ("%" + q)[1..] == q;
    if s == [] {
      assert s[0..] == s;
    } else {
      LikeLeadingPercent(s[1..], q);
      if Like(s, "%" + q) {
        if Like(s, q) {
          assert s[0..] == s;
        } else {
          var i :| 0 <= i <= |s[1..]| && Like(s[1..][i..], q);
          assert s[1..][i..] == s[i + 1..];
        }
      } else {
        forall i | 0 <= i <= |s|
          ensures !Like(s[i..], q)
        {
          if i == 0 {
            assert s[0..] == s;
          } else {
            assert s[1..][i - 1..] == s[i..];
          }
        }
      }
    }
  }

  /** With a wildcard-free word, the pattern `'%' + w + '%'` matches exactly
      the strings that contain `w`. */
  lemma LikeSurroundedMeansContains(s: string, w: string)
    requires NoWildcards(w)
    ensures Like(s, "%" + w + "%") <==> Contains(s, w)
  {
    assert "%" + w + "%" == "%" + (w + "%");
    LikeLeadingPercent(s, w + "%");
    if Like(s, "%" + w + "%") {
      var i :| 0 <= i <= |s| && Like(s[i..], w + "%");
      LikeTrailingPercent(s[i..], w);
      assert OccursAt(s, w, i);
    }
    if Contains(s, w) {
      var i :| OccursAt(s, w, i);
      LikeTrailingPercent(s[i..], w);
      assert w <= s[i..];
    }
  }

  function DigitChar(d: nat): char
    requires d < 10
  {
    ('0' as int + d) as char
  }

  predicate IsDigit(c: char) {
    '0' <= c <= '9'
  }

  /** The decimal digits of `n`, most significant first, without leading zeros. */
  function NatToString(n: nat): (r: string)
    ensures |r| >= 1
    ensures forall i :: 0 <= i < |r| ==> IsDigit(r[i])
  {
    if n < 10 then [DigitChar(n)] else NatToString(n / 10) + [DigitChar(n % 10)]
  }

  /** Java's decimal rendering of a `long`, as used by string concatenation. */
  function IntToString(n: int): string {
    if n < 0 then "-" + NatToString(-n) else NatToString(n)
  }

  function ParseDigits(s: string): nat
    requires forall i :: 0 <= i < |s| ==> IsDigit(s[i])
  {
    if s == [] then 0
    else
      assert IsDigit(s[|s| - 1]);
      ParseDigits(s[..|s| - 1]) * 10 + (s[|s| - 1] as int - '0' as int)
  }

  lemma {:induction false} ParseNatToString(n: nat)
    ensures ParseDigits(NatToString(n)) == n
  {
    if n >= 10 {
      var r := NatToString(n);
      ParseNatToString(n / 10);
      assert r[..|r| - 1] == NatToString(n / 10);
    }
  }

  /** Different numbers render differently, so a message built from the
      rendering identifies the number. */
  lemma IntToStringInjective(a: int, b: int)
    requires IntToString(a) == IntToString(b)
    ensures a == b
  {
    var ra, rb := IntToString(a), IntToString(b);
    assert ra[0] == '-' <==> a < 0 by {
      if a >= 0 { assert IsDigit(ra[0]); }
    }
    assert rb[0] == '-' <==> b < 0 by {
      if b >= 0 { assert IsDigit(rb[0]); }
    }
    if a < 0 {
      assert NatToString(-a) == ra[1..] == rb[1..] == NatToString(-b);
      ParseNatToString(-a);
      ParseNatToString(-b);
    } else {
      ParseNatToString(a);
      ParseNatToString(b);
    }
  }
}
