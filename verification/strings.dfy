/** The JavaScript string primitives the analyzer and the viewer rely on,
    written over `string` (= seq<char>):
    - `startsWith` / `endsWith`,
    - `indexOf` / `includes` (first occurrence, scanning from the left),
    - `replace(pattern: string, replacement)`, which replaces only the FIRST
      occurrence,
    - `replace(/suffix$/, '')`, an anchored suffix removal,
    - `toLowerCase`, restricted to ASCII letters,
    - `split(sep)` and `filter(Boolean)`.
 */
module Strings {
  import opened Wrappers

  predicate StartsWith(s: string, prefix: string) {
    |prefix| <= |s| && s[..|prefix|] == prefix
  }

  predicate EndsWith(s: string, suffix: string) {
    |suffix| <= |s| && s[|s| - |suffix|..] == suffix
  }

  /** `t` occurs in `s` starting at index `j`. */
  predicate OccursAt(s: string, t: string, j: nat) {
    j + |t| <= |s| && s[j..j + |t|] == t
  }

  lemma OccursAtTail(s: string, t: string, j: nat)
    requires |s| > 0
    ensures OccursAt(s[1..], t, j) <==> OccursAt(s, t, j + 1)
  {
    if j + 1 + |t| <= |s| {
      assert s[1..][j..j + |t|] == s[j + 1..j + 1 + |t|];
    }
  }

  /** `s.indexOf(t)`: the leftmost position at which `t` occurs, if any. */
  function IndexOf(s: string, t: string): (r: Option<nat>)
    ensures r.Some? ==> OccursAt(s, t, r.value)
    ensures r.Some? ==> forall j :: 0 <= j < r.value ==> !OccursAt(s, t, j)
    ensures r.None? ==> forall j: nat :: !OccursAt(s, t, j)
    decreases |s|
  {
    if StartsWith(s, t) then
      assert s[0..|t|] == s[..|t|];
      Some(0)
    else if |s| == 0 then
      None
    else
      var rest := IndexOf(s[1..], t);
      assert !OccursAt(s, t, 0);
      assert forall j: nat :: OccursAt(s[1..], t, j) <==> OccursAt(s, t, j + 1) by {
        forall j: nat ensures OccursAt(s[1..], t, j) <==> OccursAt(s, t, j + 1) {
          OccursAtTail(s, t, j);
        }
      }
      match rest
      case Some(k) =>
        assert forall j :: 1 <= j < k + 1 ==> !OccursAt(s, t, j) by {
          forall j | 1 <= j < k + 1 ensures !OccursAt(s, t, j) {
            assert !OccursAt(s[1..], t, j - 1);
          }
        }
        Some(k + 1)
      case None =>
        assert forall j: nat :: j >= 1 ==> !OccursAt(s, t, j) by {
          forall j: nat | j >= 1 ensures !OccursAt(s, t, j) {
            assert !OccursAt(s[1..], t, j - 1);
          }
        }
        None
  }

  /** Whether `t` occurs somewhere in `s`. */
  predicate Contains(s: string, t: string) {
    IndexOf(s, t).Some?
  }

  /** An occurrence at any position makes `includes` hold. */
  lemma ContainsAt(s: string, t: string, j: nat)
    requires OccursAt(s, t, j)
    ensures Contains(s, t)
  {
  }

  /** A character of `t` that `s` lacks rules out every occurrence of `t` in `s`. */
  lemma AbsentChar(s: string, t: string, c: char)
    requires c in t && c !in s
    ensures !Contains(s, t)
  {
    var i :| 0 <= i < |t| && t[i] == c;
    forall j: nat | j + |t| <= |s| ensures !OccursAt(s, t, j) {
      assert s[j..j + |t|][i] == s[j + i];
    }
    assert forall j: nat :: !OccursAt(s, t, j);
  }

  /** The first occurrence is at `k` when `t` occurs there and `t`'s first
      character appears nowhere before it. */
  lemma FirstAt(s: string, t: string, k: nat)
    requires |t| > 0 && OccursAt(s, t, k)
    requires forall j :: 0 <= j < k ==> s[j] != t[0]
    ensures IndexOf(s, t) == Some(k)
  {
    var r := IndexOf(s, t);
    assert r.Some?;
    assert s[r.value..r.value + |t|][0] == s[r.value];
  }

  /** `s.replace(pattern, replacement)` with a string pattern: only the
      leftmost occurrence is replaced; without one `s` is returned as is. */
  function ReplaceFirst(s: string, pattern: string, replacement: string): (r: string)
    ensures IndexOf(s, pattern).None? ==> r == s
    ensures IndexOf(s, pattern).Some? ==>
      var k := IndexOf(s, pattern).value;
      && |r| == |s| - |pattern| + |replacement|
      && r[..k] == s[..k]
      && r[k..k + |replacement|] == replacement
      && r[k + |replacement|..] == s[k + |pattern|..]
  {
    match IndexOf(s, pattern)
    case None => s
    case Some(k) =>
      var r := s[..k] + replacement + s[k + |pattern|..];
      assert r[..k] == s[..k];
      assert r[k..k + |replacement|] == replacement;
      assert r[k + |replacement|..] == s[k + |pattern|..];
      r
  }

  /** Replacing the first occurrence of a pattern by itself changes nothing. */
  lemma ReplaceFirstBySelf(s: string, pattern: string)
    ensures ReplaceFirst(s, pattern, pattern) == s
  {
    match IndexOf(s, pattern)
    case None =>
    case Some(k) =>
      var r := ReplaceFirst(s, pattern, pattern);
      assert s == s[..k] + s[k..k + |pattern|] + s[k + |pattern|..];
      assert r == r[..k] + r[k..k + |pattern|] + r[k + |pattern|..];
  }

  /** `s.replace(/suffix$/, '')`: removes `suffix` once, and only at the end. */
  function StripSuffix(s: string, suffix: string): (r: string)
    ensures EndsWith(s, suffix) ==> r + suffix == s
    ensures !EndsWith(s, suffix) ==> r == s
  {
    if EndsWith(s, suffix) then
      assert s == s[..|s| - |suffix|] + s[|s| - |suffix|..];
      s[..|s| - |suffix|]
    else s
  }

  /** `toLowerCase` on one character; only ASCII letters are folded. */
  function LowerChar(c: char): char {
    if 'A' <= c <= 'Z' then (c as int - 'A' as int + 'a' as int) as char else c
  }

  function ToLower(s: string): (r: string)
    ensures |r| == |s|
    ensures forall i :: 0 <= i < |s| ==> r[i] == LowerChar(s[i])
  {
    seq(|s|, i requires 0 <= i < |s| => LowerChar(s[i]))
  }

  /** A string without upper-case ASCII letters is its own lower-case form. */
  lemma ToLowerIdentity(s: string)
    requires forall i :: 0 <= i < |s| ==> !('A' <= s[i] <= 'Z')
    ensures ToLower(s) == s
  {
  }

  /** Lower-casing twice is lower-casing once. */
  lemma ToLowerIdempotent(s: string)
    ensures ToLower(ToLower(s)) == ToLower(s)
  {
  }

  /** An occurrence of `t` survives lower-casing as an occurrence of `ToLower(t)`. */
  lemma ContainsLower(s: string, t: string)
    requires Contains(s, t)
    ensures Contains(ToLower(s), ToLower(t))
  {
    var k := IndexOf(s, t).value;
    assert ToLower(s)[k..k + |t|] == ToLower(t);
    ContainsAt(ToLower(s), ToLower(t), k);
  }

  /** `s.split(sep)`: the pieces between separators, empty pieces included. */
  function Split(s: string, sep: char): (parts: seq<string>)
    ensures |parts| >= 1
    ensures forall i :: 0 <= i < |parts| ==> sep !in parts[i]
    decreases |s|
  {
    if |s| == 0 then [""]
    else
      var rest := Split(s[1..], sep);
      if s[0] == sep then [""] + rest
      else [[s[0]] + rest[0]] + rest[1..]
  }

  /** The parts in order with `sep` between neighbours. */
  function Join(parts: seq<string>, sep: char): string
    decreases |parts|
  {
    if |parts| == 0 then ""
    else if |parts| == 1 then parts[0]
    else parts[0] + [sep] + Join(parts[1..], sep)
  }

  /** Splitting and re-joining gives back the original string. */
  lemma {:induction false} JoinSplit(s: string, sep: char)
    ensures Join(Split(s, sep), sep) == s
    decreases |s|
  {
    if |s| > 0 {
      var rest := Split(s[1..], sep);
      JoinSplit(s[1..], sep);
      if s[0] == sep {
        assert Split(s, sep) == [""] + rest;
        assert Join([""] + rest, sep) == "" + [sep] + Join(rest, sep);
        assert s == [s[0]] + s[1..];
      } else {
        var parts := [[s[0]] + rest[0]] + rest[1..];
        assert Split(s, sep) == parts;
        if |rest| == 1 {
          assert Join(parts, sep) == [s[0]] + rest[0];
        } else {
          assert parts[1..] == rest[1..];
          assert Join(rest, sep) == rest[0] + [sep] + Join(rest[1..], sep);
          assert Join(parts, sep) == [s[0]] + rest[0] + [sep] + Join(rest[1..], sep);
        }
        assert s == [s[0]] + s[1..];
      }
    }
  }

  /** A separator splits the string into the pieces on either side of it. */
  lemma {:induction false} SplitAround(a: string, sep: char, b: string)
    ensures Split(a + [sep] + b, sep) == Split(a, sep) + Split(b, sep)
    decreases |a|
  {
    var s := a + [sep] + b;
    if |a| == 0 {
      assert s == [sep] + b;
      assert s[1..] == b;
    } else {
      assert s[1..] == a[1..] + [sep] + b;
      SplitAround(a[1..], sep, b);
      assert s[0] == a[0];
    }
  }

  /** A string without the separator is a single piece. */
  lemma {:induction false} SplitNoSeparator(w: string, sep: char)
    requires sep !in w
    ensures Split(w, sep) == [w]
    decreases |w|
  {
    if |w| > 0 {
      assert sep !in w[1..];
      SplitNoSeparator(w[1..], sep);
      assert w == [w[0]] + w[1..];
    }
  }

  /** Joining separator-free pieces and splitting again gives the pieces back. */
  lemma {:induction false} SplitJoin(parts: seq<string>, sep: char)
    requires |parts| >= 1
    requires forall i :: 0 <= i < |parts| ==> sep !in parts[i]
    ensures Split(Join(parts, sep), sep) == parts
    decreases |parts|
  {
    if |parts| == 1 {
      SplitNoSeparator(parts[0], sep);
    } else {
      SplitJoin(parts[1..], sep);
      SplitNoSeparator(parts[0], sep);
      SplitAround(parts[0], sep, Join(parts[1..], sep));
      assert parts == [parts[0]] + parts[1..];
    }
  }

  /** `.filter(Boolean)` on strings: keeps the non-empty ones, in order. */
  function NonEmpty(parts: seq<string>): (r: seq<string>)
    ensures forall i :: 0 <= i < |r| ==> r[i] != ""
    ensures forall x :: x in r <==> x in parts && x != ""
    ensures |r| <= |parts|
  {
    if |parts| == 0 then []
    else if parts[0] == "" then NonEmpty(parts[1..])
    else [parts[0]] + NonEmpty(parts[1..])
  }

  lemma {:induction false} NonEmptyAppend(a: seq<string>, b: seq<string>)
    ensures NonEmpty(a + b) == NonEmpty(a) + NonEmpty(b)
    decreases |a|
  {
    if |a| > 0 {
      assert (a + b)[0] == a[0];
      assert (a + b)[1..] == a[1..] + b;
      NonEmptyAppend(a[1..], b);
      if a[0] != "" {
        assert NonEmpty(a + b) == [a[0]] + NonEmpty(a[1..] + b);
        assert NonEmpty(a) == [a[0]] + NonEmpty(a[1..]);
      }
    } else {
      assert a + b == b;
    }
  }

  /** A kept part lands right after the parts kept before it. */
  lemma NonEmptyPosition(parts: seq<string>, i: nat)
    requires i < |parts| && parts[i] != ""
    ensures |NonEmpty(parts[..i])| < |NonEmpty(parts)|
    ensures NonEmpty(parts)[|NonEmpty(parts[..i])|] == parts[i]
  {
    assert parts == parts[..i] + parts[i..];
    NonEmptyAppend(parts[..i], parts[i..]);
    assert parts[i..][0] == parts[i];
    assert NonEmpty(parts[i..]) == [parts[i]] + NonEmpty(parts[i..][1..]);
  }

  /** Kept parts keep their relative order. */
  lemma NonEmptyKeepsOrder(parts: seq<string>, i: nat, j: nat)
    requires i < j < |parts| && parts[i] != "" && parts[j] != ""
    ensures |NonEmpty(parts[..i])| < |NonEmpty(parts[..j])| < |NonEmpty(parts)|
    ensures NonEmpty(parts)[|NonEmpty(parts[..i])|] == parts[i]
    ensures NonEmpty(parts)[|NonEmpty(parts[..j])|] == parts[j]
  {
    NonEmptyPosition(parts, i);
    NonEmptyPosition(parts, j);
    assert parts[..j] == parts[..i] + parts[i..j];
    NonEmptyAppend(parts[..i], parts[i..j]);
    assert parts[i..j][0] == parts[i];
    assert NonEmpty(parts[i..j]) == [parts[i]] + NonEmpty(parts[i..j][1..]);
  }
}
