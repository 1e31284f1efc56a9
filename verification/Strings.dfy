/** Splitting and joining strings, as `str::split` and `split_once` do. */
module Strings {
  import opened Prelude

  /** The pieces between the separators; always at least one. */
  function Split(s: string, sep: char): (r: seq<string>)
    ensures |r| >= 1
  {
    if s == "" then [""]
    else
      var rest := Split(s[1..], sep);
      if s[0] == sep then [""] + rest else [[s[0]] + rest[0]] + rest[1..]
  }

  function Join(parts: seq<string>, sep: char): string
    requires |parts| >= 1
  {
    if |parts| == 1 then parts[0] else parts[0] + [sep] + Join(parts[1..], sep)
  }

  lemma {:induction false} SplitWithout(s: string, sep: char)
    requires sep !in s
    ensures Split(s, sep) == [s]
  {
    if s != "" {
      SplitWithout(s[1..], sep);
      assert [s[0]] + s[1..] == s;
    }
  }

  lemma {:induction false} SplitAt(a: string, b: string, sep: char)
    ensures Split(a + [sep] + b, sep) == Split(a, sep) + Split(b, sep)
  {
    var s := a + [sep] + b;
    if a == "" {
      assert s[1..] == b;
    } else {
      assert s[1..] == a[1..] + [sep] + b;
      SplitAt(a[1..], b, sep);
    }
  }

  lemma {:induction false} JoinSplit(s: string, sep: char)
    ensures Join(Split(s, sep), sep) == s
  {
    if s != "" {
      var rest := Split(s[1..], sep);
      JoinSplit(s[1..], sep);
      if s[0] == sep {
        assert ([""] + rest)[1..] == rest;
      } else {
        assert ([[s[0]] + rest[0]] + rest[1..])[1..] == rest[1..];
      }
    }
  }

  lemma {:induction false} JoinConcat(a: seq<string>, b: seq<string>, sep: char)
    requires |a| >= 1 && |b| >= 1
    ensures Join(a + b, sep) == Join(a, sep) + [sep] + Join(b, sep)
  {
    if |a| == 1 {
      assert (a + b)[1..] == b;
    } else {
      assert (a + b)[1..] == a[1..] + b;
      JoinConcat(a[1..], b, sep);
    }
  }

  /** The part before the first character that satisfies `stop`. */
  function Before(s: string, stop: char -> bool): (r: string)
    ensures r <= s && forall c :: c in r ==> !stop(c)
  {
    if s == "" || stop(s[0]) then "" else [s[0]] + Before(s[1..], stop)
  }

  lemma {:induction false} BeforePrefix(a: string, b: string, stop: char -> bool)
    requires forall c :: c in a ==> !stop(c)
    requires b == "" || stop(b[0])
    ensures Before(a + b, stop) == a
  {
    if a == "" {
      assert a + b == b;
    } else {
      assert (a + b)[1..] == a[1..] + b;
      BeforePrefix(a[1..], b, stop);
    }
  }

  /** The part after the last `c`, or everything when there is none. */
  function AfterLast(s: string, c: char): (r: string)
    ensures c !in r && |r| <= |s| && r == s[|s| - |r|..]
  {
    if s == "" || s[|s| - 1] == c then "" else AfterLast(s[..|s| - 1], c) + [s[|s| - 1]]
  }

  lemma {:induction false} AfterLastSuffix(a: string, b: string, c: char)
    requires c !in b && (a == "" || a[|a| - 1] == c)
    ensures AfterLast(a + b, c) == b
  {
    if b == "" {
      assert a + b == a;
    } else {
      assert (a + b)[..|a + b| - 1] == a + b[..|b| - 1];
      AfterLastSuffix(a, b[..|b| - 1], c);
    }
  }

  /** Split at the first occurrence of `pattern`. */
  function SplitOnce(s: string, pattern: string): Option<(string, string)> {
    if pattern <= s then Some(("", s[|pattern|..]))
    else if s == "" then None
    else
      match SplitOnce(s[1..], pattern)
      case None => None
      case Some((before, after)) => Some(([s[0]] + before, after))
  }

  lemma {:induction false} SplitOnceAt(a: string, pattern: string, b: string)
    requires pattern != "" && pattern[0] !in a
    ensures SplitOnce(a + pattern + b, pattern) == Some((a, b))
  {
    var s := a + pattern + b;
    if a == "" {
      assert s == pattern + b && s[|pattern|..] == b;
    } else {
      assert s[0] == a[0] && a[0] in a;
      assert s[1..] == a[1..] + pattern + b;
      SplitOnceAt(a[1..], pattern, b);
      assert [a[0]] + a[1..] == a;
    }
  }
}
