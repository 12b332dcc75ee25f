/** PostgreSQL's `ILIKE` as the search filters use it: the pattern
    `'%' + search + '%'`, where `%` matches any run of characters, `_` any
    single character, a backslash (the default escape) makes the character
    after it match only itself, and letters compare without regard to
    case. */
module SqlLike {
  import opened Text

  /** A character the pattern does not take literally: the wildcards `%`
      and `_`, and the escape character. */
  predicate IsWildcard(c: char) { c == '%' || c == '_' || c == '\\' }

  predicate NoWildcards(s: string) {
    forall i :: 0 <= i < |s| ==> !IsWildcard(s[i])
  }

  /** `t ILIKE p`. */
  predicate ILike(t: string, p: string)
    decreases |t| + |p|
  {
    if p == [] then t == []
    else if p[0] == '%' then ILike(t, p[1..]) || (t != [] && ILike(t[1..], p))
    else if p[0] == '\\' then
      |p| >= 2 && t != [] && SameLetterIgnoringCase(t[0], p[1]) && ILike(t[1..], p[2..])
    else t != [] && (p[0] == '_' || SameLetterIgnoringCase(t[0], p[0])) && ILike(t[1..], p[1..])
  }

  /** `s` occurs in `t` at some position, letters compared without case. */
  predicate ContainsIgnoringCase(t: string, s: string) {
    exists i :: 0 <= i <= |t| && StartsWithIgnoringCase(t[i..], s)
  }

  /** The search filter: `column ILIKE '%' || search || '%'`. */
  predicate SearchMatches(column: string, search: string) {
    ILike(column, "%" + search + "%")
  }

  /** For a search text free of wildcards and escapes the filter is exactly a
      case-insensitive substring test. */
  lemma SearchIsSubstring(t: string, s: string)
    requires NoWildcards(s)
    ensures SearchMatches(t, s) <==> ContainsIgnoringCase(t, s)
  {
    var q := s + "%";
    assert "%" + s + "%" == "%" + q;
    LeadingPercent(t, q);
    if SearchMatches(t, s) {
      var i :| 0 <= i <= |t| && ILike(t[i..], q);
      LiteralThenPercent(t[i..], s);
    }
    if ContainsIgnoringCase(t, s) {
      var i :| 0 <= i <= |t| && StartsWithIgnoringCase(t[i..], s);
      LiteralThenPercent(t[i..], s);
    }
  }

  /** A lone `%` matches every text. */
  lemma {:induction false} PercentMatchesAll(t: string)
    ensures ILike(t, "%")
    decreases |t|
  {
    if t != [] {
      PercentMatchesAll(t[1..]);
    }
  }

  /** A leading `%` lets the rest of the pattern match any suffix. */
  lemma {:induction false} LeadingPercent(t: string, q: string)
    ensures ILike(t, "%" + q) <==> exists i :: 0 <= i <= |t| && ILike(t[i..], q)
    decreases |t|
  {
    var p := "%" + q;
    assert p[1..] == q;
    assert t[0..] == t;
    if t != [] {
      LeadingPercent(t[1..], q);
      if ILike(t[1..], p) {
        var i :| 0 <= i <= |t[1..]| && ILike(t[1..][i..], q);
        assert t[1..][i..] == t[i + 1..];
      }
      if exists i :: 0 <= i <= |t| && ILike(t[i..], q) {
        var i :| 0 <= i <= |t| && ILike(t[i..], q);
        if i > 0 {
          assert t[1..][i - 1..] == t[i..];
        }
      }
    }
  }

  /** A wildcard-free text followed by `%` matches exactly the texts it starts. */
  lemma {:induction false} LiteralThenPercent(t: string, s: string)
    requires NoWildcards(s)
    ensures ILike(t, s + "%") <==> StartsWithIgnoringCase(t, s)
    decreases |s|
  {
    if s == [] {
      assert s + "%" == "%";
      PercentMatchesAll(t);
    } else {
      var p := s + "%";
      assert p[0] == s[0] && !IsWildcard(s[0]);
      assert p[1..] == s[1..] + "%";
      if t != [] {
        LiteralThenPercent(t[1..], s[1..]);
        if StartsWithIgnoringCase(t[1..], s[1..]) && SameLetterIgnoringCase(t[0], s[0]) {
          forall i | 0 <= i < |s| ensures SameLetterIgnoringCase(t[i], s[i]) {
            if i > 0 {
              assert t[1..][i - 1] == t[i];
            }
          }
        }
        if StartsWithIgnoringCase(t, s) {
          forall i | 0 <= i < |s| - 1 ensures SameLetterIgnoringCase(t[1..][i], s[1..][i]) {
            assert t[1..][i] == t[i + 1];
          }
        }
      }
    }
  }

  /** A backslash in the search text escapes what follows: the search
      `\%` finds "50%", which holds no backslash. */
  lemma BackslashEscapes()
    ensures SearchMatches("50%", "\\%")
    ensures !ContainsIgnoringCase("50%", "\\%")
  {
    var p := "%" + "\\%" + "%";
    assert p == "%\\%%";
    assert p[1..] == "\\%%" && p[1..][2..] == "%";
    assert "50%"[1..] == "0%" && "0%"[1..] == "%" && "%"[1..] == [];
    PercentMatchesAll([]);
    assert ILike("%", p[1..]);
    assert ILike("0%", p);
    forall i | 0 <= i <= 3 ensures !StartsWithIgnoringCase("50%"[i..], "\\%") {
      if i < 3 {
        assert "50%"[i..][0] != '\\';
      }
    }
  }

  /** A wildcard in the search text widens the match: `_` stands for any
      character, so "a_c" finds "abc" although "abc" does not contain "a_c". */
  lemma UnderscoreIsAWildcard()
    ensures SearchMatches("abc", "a_c")
    ensures !ContainsIgnoringCase("abc", "a_c")
  {
    var p := "%" + "a_c" + "%";
    assert p == "%a_c%";
    assert p[1..] == "a_c%";
    assert p[1..][1..] == "_c%";
    assert p[1..][1..][1..] == "c%";
    assert p[1..][1..][1..][1..] == "%";
    assert "abc"[1..] == "bc" && "bc"[1..] == "c" && "c"[1..] == [];
    PercentMatchesAll([]);
    assert ILike("abc", p[1..]);
    forall i | 0 <= i <= 3 ensures !StartsWithIgnoringCase("abc"[i..], "a_c") {
      if i == 0 {
        assert "abc"[0..][1] == 'b';
      }
    }
  }
}
