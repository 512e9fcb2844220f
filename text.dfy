/**
 * String helpers with the meaning of the Python built-ins the source uses:
 * `str.split(c)` with its `[0]` and `[-1]` fields, `str.lower()` and a
 * case-insensitive substring test (`__icontains`).
 */
module Text {

  /** Index of the first occurrence of `c` in `s`, or `|s|` when there is none. */
  function IndexOf(s: string, c: char): (i: nat)
    ensures i <= |s|
    ensures i < |s| ==> s[i] == c
    ensures forall k :: 0 <= k < i ==> s[k] != c
  {
    if s == [] then 0
    else if s[0] == c then 0
    else 1 + IndexOf(s[1..], c)
  }

  /** Python's `s.split(c)` for a one-character separator: always at least one field, none holding `c`. */
  function Split(s: string, c: char): (parts: seq<string>)
    ensures |parts| >= 1
    ensures forall k :: 0 <= k < |parts| ==> c !in parts[k]
    decreases |s|
  {
    var i := IndexOf(s, c);
    if i == |s| then
      [s]
    else
      assert forall k :: 0 <= k < i ==> s[..i][k] != c;
      [s[..i]] + Split(s[i + 1..], c)
  }

  /** Python's `c.join(parts)`, the inverse of `Split`. */
  function Join(parts: seq<string>, c: char): string
    requires |parts| >= 1
  {
    if |parts| == 1 then parts[0] else parts[0] + [c] + Join(parts[1..], c)
  }

  /** `s.split(c)[0]`. */
  function FirstField(s: string, c: char): string
  {
    Split(s, c)[0]
  }

  /** `s.split(c)[-1]`. */
  function LastField(s: string, c: char): string
  {
    var parts := Split(s, c);
    parts[|parts| - 1]
  }

  lemma {:induction false} SplitThenJoin(s: string, c: char)
    ensures Join(Split(s, c), c) == s
    decreases |s|
  {
    var i := IndexOf(s, c);
    if i < |s| {
      SplitThenJoin(s[i + 1..], c);
      assert s == s[..i] + [c] + s[i + 1..];
    }
  }

  lemma {:induction false} IndexOfJoin(parts: seq<string>, c: char)
    requires |parts| >= 1
    requires forall k :: 0 <= k < |parts| ==> c !in parts[k]
    ensures IndexOf(Join(parts, c), c) == |parts[0]|
    ensures |parts| > 1 ==> Join(parts, c)[|parts[0]| + 1..] == Join(parts[1..], c)
    ensures |parts| > 1 ==> Join(parts, c)[..|parts[0]|] == parts[0]
  {
    var s := Join(parts, c);
    if |parts| == 1 {
      IndexOfAbsent(parts[0], c);
    } else {
      assert s == parts[0] + ([c] + Join(parts[1..], c));
      IndexOfAfterPrefix(parts[0], [c] + Join(parts[1..], c), c);
    }
  }

  lemma {:induction false} IndexOfAbsent(s: string, c: char)
    requires c !in s
    ensures IndexOf(s, c) == |s|
  {
    if s != [] {
      assert s[0] != c;
      assert c !in s[1..];
      IndexOfAbsent(s[1..], c);
    }
  }

  lemma {:induction false} IndexOfAfterPrefix(p: string, rest: string, c: char)
    requires c !in p && rest != [] && rest[0] == c
    ensures IndexOf(p + rest, c) == |p|
  {
    if p != [] {
      assert (p + rest)[1..] == p[1..] + rest;
      assert c !in p[1..];
      IndexOfAfterPrefix(p[1..], rest, c);
    }
  }

  /** Joining fields free of `c` and splitting again gives the fields back. */
  lemma {:induction false} JoinThenSplit(parts: seq<string>, c: char)
    requires |parts| >= 1
    requires forall k :: 0 <= k < |parts| ==> c !in parts[k]
    ensures Split(Join(parts, c), c) == parts
    decreases |parts|
  {
    IndexOfJoin(parts, c);
    if |parts| > 1 {
      JoinThenSplit(parts[1..], c);
    }
  }

  /** The first field is the text before the first `c` (all of `s` when `c` is absent). */
  lemma FirstFieldIsPrefix(s: string, c: char)
    ensures c !in FirstField(s, c)
    ensures FirstField(s, c) == s[..|FirstField(s, c)|]
    ensures c in s ==> s[|FirstField(s, c)|] == c
    ensures c !in s ==> FirstField(s, c) == s
  {
    var i := IndexOf(s, c);
    if i == |s| {
      assert s[..i] == s;
    } else {
      assert s[i] == c;
    }
  }

  /** The last field is the text after the last `c` (all of `s` when `c` is absent). */
  lemma {:induction false} LastFieldIsSuffix(s: string, c: char)
    ensures c !in LastField(s, c)
    ensures |LastField(s, c)| <= |s|
    ensures LastField(s, c) == s[|s| - |LastField(s, c)|..]
    ensures c in s ==> s[|s| - |LastField(s, c)| - 1] == c
    ensures c !in s ==> LastField(s, c) == s
    decreases |s|
  {
    var i := IndexOf(s, c);
    if i < |s| {
      var rest := s[i + 1..];
      LastFieldIsSuffix(rest, c);
      assert LastField(s, c) == LastField(rest, c);
      var e := LastField(rest, c);
      assert rest[|rest| - |e|..] == s[|s| - |e|..];
      if c !in rest {
        assert e == rest;
        assert s[|s| - |e| - 1] == s[i] == c;
      } else {
        assert s[|s| - |e| - 1] == rest[|rest| - |e| - 1];
      }
    } else {
      assert s[..i] == s;
      assert s[|s| - |s|..] == s;
    }
  }

  /** ASCII letters folded to lower case, every other character kept. */
  function LowerChar(ch: char): char
  {
    if 'A' <= ch <= 'Z' then (ch as int + 32) as char else ch
  }

  /** `s.lower()` restricted to ASCII letters. */
  function Lower(s: string): (r: string)
    ensures |r| == |s|
  {
    seq(|s|, i requires 0 <= i < |s| => LowerChar(s[i]))
  }

  predicate IsPrefix(p: string, s: string)
  {
    |p| <= |s| && s[..|p|] == p
  }

  predicate EndsWith(s: string, suffix: string)
  {
    |suffix| <= |s| && s[|s| - |suffix|..] == suffix
  }

  /** `p` occurs in `s` as a contiguous substring. */
  predicate Contains(s: string, p: string)
    decreases |s|
  {
    IsPrefix(p, s) || (s != [] && Contains(s[1..], p))
  }

  /** Django's `field__icontains=p`, with the ASCII-only case folding of SQLite's `LIKE`. */
  predicate ContainsIgnoringCase(s: string, p: string)
  {
    Contains(Lower(s), Lower(p))
  }

  /** A substring occurrence at offset `k` witnesses `Contains`. */
  lemma {:induction false} ContainsAt(s: string, p: string, k: nat)
    requires k + |p| <= |s| && s[k..k + |p|] == p
    ensures Contains(s, p)
    decreases k
  {
    if k > 0 {
      assert s[1..][k - 1..k - 1 + |p|] == s[k..k + |p|];
      ContainsAt(s[1..], p, k - 1);
    }
  }

  /** `Contains` holds only when some offset carries the substring. */
  lemma {:induction false} ContainsHasOffset(s: string, p: string) returns (k: nat)
    requires Contains(s, p)
    ensures k + |p| <= |s| && s[k..k + |p|] == p
    decreases |s|
  {
    if IsPrefix(p, s) {
      k := 0;
    } else {
      var k' := ContainsHasOffset(s[1..], p);
      assert s[1..][k'..k' + |p|] == s[k' + 1..k' + 1 + |p|];
      k := k' + 1;
    }
  }

  lemma LowerIdempotent(s: string)
    ensures Lower(Lower(s)) == Lower(s)
  {
  }

  /** Case-insensitive matching depends on the letters only, not on their case. */
  lemma ContainsIgnoringCaseUnderLowering(s: string, p: string)
    ensures ContainsIgnoringCase(s, p) == ContainsIgnoringCase(Lower(s), p)
    ensures ContainsIgnoringCase(s, p) == ContainsIgnoringCase(s, Lower(p))
  {
    LowerIdempotent(s);
    LowerIdempotent(p);
  }
}
