/**
 * The pieces of `os.path` and `str` that the build orchestration relies on,
 * over POSIX path strings.
 */
module Paths {

  /** `s.endswith(suffix)`, and equally `s[-len(suffix):] == suffix` for a non-empty suffix. */
  predicate EndsWith(s: string, suffix: string)
  {
    |suffix| <= |s| && s[|s| - |suffix|..] == suffix
  }

  /** A suffix of a suffix is a suffix. */
  lemma EndsWithTrans(s: string, t: string, suffix: string)
    requires EndsWith(s, t) && EndsWith(t, suffix)
    ensures EndsWith(s, suffix)
  {
    assert s[|s| - |suffix|..] == s[|s| - |t|..][|t| - |suffix|..];
  }

  predicate IsAbsolute(p: string)
  {
    |p| > 0 && p[0] == '/'
  }

  /**
   * `os.path.join(a, b)`: an absolute `b` replaces `a`; otherwise a separator is
   * inserted unless `a` is empty or already ends with one.
   */
  function Join(a: string, b: string): string
  {
    if IsAbsolute(b) then b
    else if a == [] || a[|a| - 1] == '/' then a + b
    else a + "/" + b
  }

  /** A joined path ends with its last component, and keeps its first unless that is replaced. */
  lemma JoinFacts(a: string, b: string)
    ensures var p := Join(a, b);
            && EndsWith(p, b)
            && (IsAbsolute(b) ==> p == b)
            && (!IsAbsolute(b) ==> |a| <= |p| && p[..|a|] == a)
            && (!IsAbsolute(b) && a != [] && a[|a| - 1] != '/' ==> p == a + "/" + b)
  {
  }

  /** Joining one directory with two different relative names gives two different paths. */
  lemma JoinDistinct(a: string, b1: string, b2: string)
    requires !IsAbsolute(b1) && !IsAbsolute(b2) && b1 != b2
    ensures Join(a, b1) != Join(a, b2)
  {
    var sep := if a == [] || a[|a| - 1] == '/' then a else a + "/";
    assert Join(a, b1) == sep + b1 && Join(a, b2) == sep + b2;
    assert (sep + b1)[|sep|..] == b1 && (sep + b2)[|sep|..] == b2;
  }

  /** `os.path.basename(p)`: everything after the last separator. */
  function Basename(p: string): string
    decreases |p|
  {
    if p == [] || p[|p| - 1] == '/' then []
    else Basename(p[..|p| - 1]) + [p[|p| - 1]]
  }

  /** The base name holds no separator, ends the path, and is preceded there by a separator. */
  lemma {:induction false} BasenameFacts(p: string)
    ensures var b := Basename(p);
            && '/' !in b
            && EndsWith(p, b)
            && (|b| < |p| ==> p[|p| - |b| - 1] == '/')
    decreases |p|
  {
    if p != [] && p[|p| - 1] != '/' {
      var init := p[..|p| - 1];
      BasenameFacts(init);
      var b := Basename(p);
      assert b == Basename(init) + [p[|p| - 1]];
      assert p == init + [p[|p| - 1]];
    }
  }

  /** `sub` occurs in `s` starting at index `i`. */
  predicate OccursAt(s: string, sub: string, i: int)
  {
    0 <= i <= |s| - |sub| && s[i..i + |sub|] == sub
  }

  /** `sub in s` for strings, scanning from the left. */
  function Contains(s: string, sub: string): bool
    decreases |s|
  {
    if |s| < |sub| then false
    else if s[..|sub|] == sub then true
    else Contains(s[1..], sub)
  }

  /** The scan finds `sub` exactly when it occurs somewhere in `s`. */
  lemma {:induction false} ContainsIffOccurs(s: string, sub: string)
    ensures Contains(s, sub) <==> exists i :: OccursAt(s, sub, i)
    decreases |s|
  {
    if |s| < |sub| {
    } else if s[..|sub|] == sub {
      assert OccursAt(s, sub, 0);
    } else {
      ContainsIffOccurs(s[1..], sub);
      if Contains(s, sub) {
        var i :| OccursAt(s[1..], sub, i);
        assert s[1..][i..i + |sub|] == s[i + 1..i + 1 + |sub|];
        assert OccursAt(s, sub, i + 1);
      }
      if exists i :: OccursAt(s, sub, i) {
        var i :| OccursAt(s, sub, i);
        assert i != 0;
        assert s[1..][i - 1..i - 1 + |sub|] == s[i..i + |sub|];
        assert OccursAt(s[1..], sub, i - 1);
      }
    }
  }

  /** `s.split(sep)` for a one-character separator: never empty, keeps empty fields. */
  function Split(s: string, sep: char): (parts: seq<string>)
    ensures |parts| >= 1
    ensures forall i :: 0 <= i < |parts| ==> sep !in parts[i]
  {
    if s == [] then [[]]
    else
      var rest := Split(s[1..], sep);
      if s[0] == sep then [[]] + rest
      else [[s[0]] + rest[0]] + rest[1..]
  }

  /** `sep.join(parts)`. */
  function JoinWith(parts: seq<string>, sep: char): string
    requires |parts| >= 1
  {
    if |parts| == 1 then parts[0]
    else parts[0] + [sep] + JoinWith(parts[1..], sep)
  }

  /** Joining the fields of a split gives back the original string. */
  lemma {:induction false} JoinSplit(s: string, sep: char)
    ensures JoinWith(Split(s, sep), sep) == s
  {
    if s != [] {
      var rest := Split(s[1..], sep);
      JoinSplit(s[1..], sep);
      if s[0] == sep {
        assert Split(s, sep)[1..] == rest;
        assert s == [sep] + s[1..];
      } else if |rest| == 1 {
        assert s == [s[0]] + rest[0];
      } else {
        assert Split(s, sep)[1..] == rest[1..];
        assert JoinWith(rest, sep) == rest[0] + [sep] + JoinWith(rest[1..], sep);
        assert s == [s[0]] + s[1..];
      }
    }
  }

  /** Splitting a join of separator-free fields gives back the fields. */
  lemma {:induction false} SplitJoin(parts: seq<string>, sep: char)
    requires |parts| >= 1
    requires forall i :: 0 <= i < |parts| ==> sep !in parts[i]
    ensures Split(JoinWith(parts, sep), sep) == parts
  {
    if |parts| == 1 {
      SplitField(parts[0], sep);
    } else {
      SplitJoin(parts[1..], sep);
      SplitPrefix(parts[0], JoinWith(parts[1..], sep), sep);
      assert [parts[0]] + parts[1..] == parts;
    }
  }

  /** A separator-free field splits to itself. */
  lemma {:induction false} SplitField(f: string, sep: char)
    requires sep !in f
    ensures Split(f, sep) == [f]
  {
    if f != [] {
      SplitField(f[1..], sep);
      assert [f[0]] + f[1..] == f;
    }
  }

  /** Splitting `f + sep + t` for a separator-free `f` yields `f` followed by the fields of `t`. */
  lemma {:induction false} SplitPrefix(f: string, t: string, sep: char)
    requires sep !in f
    ensures Split(f + [sep] + t, sep) == [f] + Split(t, sep)
  {
    if f == [] {
      assert ([] + [sep] + t)[1..] == t;
    } else {
      SplitPrefix(f[1..], t, sep);
      assert (f + [sep] + t)[1..] == f[1..] + [sep] + t;
      assert [f[0]] + f[1..] == f;
    }
  }
}
