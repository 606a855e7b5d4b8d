/**
 * The string tests the store applies to metric names, with its regular
 * expressions written out as prefix and first-segment checks.
 */
module MetricNames {
  import opened Wrappers

  predicate StartsWith(s: string, prefix: string)
  {
    |prefix| <= |s| && s[..|prefix|] == prefix
  }

  /** `part` occurs in `s` at position `i`. */
  predicate OccursAt(s: string, part: string, i: int)
  {
    0 <= i && i + |part| <= |s| && s[i..i + |part|] == part
  }

  predicate Contains(s: string, part: string)
  {
    exists i :: 0 <= i <= |s| && OccursAt(s, part, i)
  }

  /** `\w` in a Ruby regular expression: an ASCII letter, digit or underscore. */
  predicate IsWordChar(c: char)
  {
    ('a' <= c <= 'z') || ('A' <= c <= 'Z') || ('0' <= c <= '9') || c == '_'
  }

  /** The length of the longest prefix of `s` made of characters in the class. */
  function Run(s: string, inClass: char -> bool): (n: nat)
    ensures n <= |s|
    ensures forall i :: 0 <= i < n ==> inClass(s[i])
    ensures n < |s| ==> !inClass(s[n])
  {
    if s != [] && inClass(s[0]) then 1 + Run(s[1..], inClass) else 0
  }

  /**
   * The capture of `/\A([C]+)\//` for a character class C: a non-empty run of
   * class characters at the start of the name, followed by a slash.
   */
  function FirstSegment(name: string, inClass: char -> bool): Option<string>
  {
    var n := Run(name, inClass);
    if 0 < n < |name| && name[n] == '/' then Some(name[..n]) else None
  }

  /** The category of a metric name: its first `/`-terminated segment of word characters. */
  function CategoryOf(name: string): (r: Option<string>)
    ensures r.Some? ==> r.value != [] && StartsWith(name, r.value + "/")
    ensures r.Some? ==> forall i :: 0 <= i < |r.value| ==> IsWordChar(r.value[i])
  {
    FirstSegment(name, IsWordChar)
  }

  /** A non-empty word is the category of exactly the names that start with it and a slash. */
  lemma CategoryOfExact(name: string, cat: string)
    requires cat != [] && forall i :: 0 <= i < |cat| ==> IsWordChar(cat[i])
    ensures CategoryOf(name) == Some(cat) <==> StartsWith(name, cat + "/")
  {
    if StartsWith(name, cat + "/") {
      var n := Run(name, IsWordChar);
      assert name[|cat|] == (cat + "/")[|cat|] == '/';
      assert n == |cat|;
      assert name[..n] == (cat + "/")[..|cat|] == cat;
    }
  }

  /** The "main" regular expression of a call site: `/\/app\//`. */
  predicate MentionsApp(line: string)
  {
    Contains(line, "/app/")
  }

  /** `caller.find_all { |c| c =~ /\/app\// }`: the application frames of a backtrace, in order. */
  function AppFrames(lines: seq<string>): (r: seq<string>)
    ensures |r| <= |lines|
    ensures forall x :: x in r <==> x in lines && MentionsApp(x)
  {
    if lines == [] then []
    else if MentionsApp(lines[0]) then [lines[0]] + AppFrames(lines[1..])
    else AppFrames(lines[1..])
  }

  // The class `[\w|\d]` as written in the source: besides word characters it
  // contains a literal `|`.

  predicate IsCategoryCharAsWritten(c: char)
  {
    IsWordChar(c) || c == '|'
  }

  function CategoryOfAsWritten(name: string): Option<string>
  {
    FirstSegment(name, IsCategoryCharAsWritten)
  }

  /** The alternatives of a regular expression source split at each `|`. */
  function SplitPipes(s: string): (r: seq<string>)
    ensures |r| >= 1
    ensures (forall i :: 0 <= i < |s| ==> s[i] != '|') ==> r == [s]
  {
    if s == [] then [""]
    else
      var rest := SplitPipes(s[1..]);
      if s[0] == '|' then [""] + rest
      else
        assert [s[0]] + s[1..] == s;
        [[s[0]] + rest[0]] + rest[1..]
  }

  /**
   * `name =~ /\A#{cat}\//` for a category of the as-written class: the category is
   * interpolated without escaping, so each `|` in it is an alternation. The first
   * alternative keeps the `\A` anchor, the last one keeps the trailing slash.
   */
  predicate MatchesAsWritten(cat: string, name: string)
  {
    var alts := SplitPipes(cat);
    if |alts| == 1 then StartsWith(name, cat + "/")
    else
      StartsWith(name, alts[0])
      || (exists i :: 0 < i < |alts| - 1 && Contains(name, alts[i]))
      || Contains(name, alts[|alts| - 1] + "/")
  }

  /**
   * As written, a scoped entry named `|/a` yields the category `|`, whose pattern
   * `/\A|\//` matches every name: its aggregate combines the whole transaction,
   * the root entry included.
   */
  lemma PipeCategoryMatchesEverything(name: string)
    ensures CategoryOfAsWritten("|/a") == Some("|")
    ensures MatchesAsWritten("|", name)
  {
    assert Run("|/a", IsCategoryCharAsWritten) == 1 by {
      assert Run("|/a"[1..], IsCategoryCharAsWritten) == 0;
    }
    assert "|/a"[..1] == "|";
    assert SplitPipes("|") == ["", ""] by {
      assert "|"[1..] == "";
    }
    assert name[..0] == "";
  }

  /**
   * With the class the authors evidently meant (`\w`), no category holds a `|`,
   * `|/a` has none, and the interpolated pattern is exactly the prefix test
   * `StartsWith(name, cat + "/")`.
   */
  lemma CorrectedCategoryMatchIsPrefix(key: string, name: string)
    requires CategoryOf(key).Some?
    ensures CategoryOf("|/a") == None
    ensures MatchesAsWritten(CategoryOf(key).value, name) <==> StartsWith(name, CategoryOf(key).value + "/")
  {
    var cat := CategoryOf(key).value;
    assert forall i :: 0 <= i < |cat| ==> cat[i] != '|' by {
      forall i | 0 <= i < |cat| ensures cat[i] != '|' {
        assert IsWordChar(cat[i]);
      }
    }
    assert Run("|/a", IsWordChar) == 0;
  }
}
