/**
 * The handful of Python `str` operations the enrichment core relies on:
 * `strip`, `lower`, `capitalize`, `startswith`, `endswith`, `in`, `split`
 * and `replace(p, "")`, each with the property that pins down what it does.
 */
module Text {
  import opened Wrappers

  /** Python's `str.isspace` for one character: every character `strip()` and the
      regular-expression class `\s` treat as whitespace. */
  predicate IsSpace(c: char) {
    || c == ' '
    || ('\t' <= c <= '\r')
    || ('\U{1C}' <= c <= '\U{1F}')
    || c == '\U{85}' || c == '\U{A0}' || c == '\U{1680}'
    || ('\U{2000}' <= c <= '\U{200A}')
    || c == '\U{2028}' || c == '\U{2029}' || c == '\U{202F}' || c == '\U{205F}' || c == '\U{3000}'
  }

  /** Drops leading whitespace: what is left is a suffix, everything dropped is whitespace. */
  function TrimStart(s: string): (r: string)
    ensures |r| <= |s| && r == s[|s| - |r|..]
    ensures forall k :: 0 <= k < |s| - |r| ==> IsSpace(s[k])
    ensures r == [] || !IsSpace(r[0])
  {
    if |s| > 0 && IsSpace(s[0]) then TrimStart(s[1..]) else s
  }

  /** Drops trailing whitespace: what is left is a prefix, everything dropped is whitespace. */
  function TrimEnd(s: string): (r: string)
    ensures |r| <= |s| && r == s[..|r|]
    ensures forall k :: |r| <= k < |s| ==> IsSpace(s[k])
    ensures r == [] || !IsSpace(r[|r| - 1])
  {
    if |s| > 0 && IsSpace(s[|s| - 1]) then TrimEnd(s[..|s| - 1]) else s
  }

  /** Python's `s.strip()`. */
  function Strip(s: string): string {
    TrimEnd(TrimStart(s))
  }

  /** `not s or not s.strip()`: empty or whitespace only. */
  predicate IsBlank(s: string) {
    Strip(s) == []
  }

  /** The stripped text is the slice `s[a..a + |Strip(s)|]`, with whitespace only around it,
      and it neither starts nor ends with whitespace. */
  lemma StripIsSlice(s: string) returns (a: nat)
    ensures a + |Strip(s)| <= |s| && Strip(s) == s[a..a + |Strip(s)|]
    ensures forall k :: 0 <= k < a ==> IsSpace(s[k])
    ensures forall k :: a + |Strip(s)| <= k < |s| ==> IsSpace(s[k])
    ensures Strip(s) == [] || (!IsSpace(Strip(s)[0]) && !IsSpace(Strip(s)[|Strip(s)| - 1]))
  {
    var t := TrimStart(s);
    a := |s| - |t|;
    var r := TrimEnd(t);
    assert r == t[..|r|];
    assert t == s[a..];
    assert r == s[a..a + |r|];
    forall k | a + |r| <= k < |s| ensures IsSpace(s[k]) {
      assert s[k] == t[k - a];
    }
    if r != [] {
      assert r[0] == t[0];
    }
  }

  /** Text that is empty or has non-whitespace at both ends is left alone by `strip()`. */
  lemma StripKeepsTrimmed(s: string)
    requires s == [] || (!IsSpace(s[0]) && !IsSpace(s[|s| - 1]))
    ensures Strip(s) == s
  {
  }

  /** `strip()` is idempotent, so the source's repeated `.strip()` calls are harmless. */
  lemma StripIdempotent(s: string)
    ensures Strip(Strip(s)) == Strip(s)
  {
    var _ := StripIsSlice(s);
    StripKeepsTrimmed(Strip(s));
  }

  /** Blank means whitespace only. */
  lemma BlankIffAllSpace(s: string)
    ensures IsBlank(s) <==> forall k :: 0 <= k < |s| ==> IsSpace(s[k])
  {
    var a := StripIsSlice(s);
    if !IsBlank(s) {
      assert !IsSpace(s[a]);
    }
  }

  /** ASCII case mapping (the model's rendering of `str.lower` / `str.upper`). */
  function LowerChar(c: char): char {
    if 'A' <= c <= 'Z' then (c as int + 32) as char else c
  }

  function UpperChar(c: char): char {
    if 'a' <= c <= 'z' then (c as int - 32) as char else c
  }

  /** Python's `s.lower()`, character by character. */
  function Lower(s: string): (r: string)
    ensures |r| == |s| && forall k :: 0 <= k < |s| ==> r[k] == LowerChar(s[k])
  {
    if s == [] then [] else [LowerChar(s[0])] + Lower(s[1..])
  }

  /** Python's `s.capitalize()`: the first character upper-cased, the rest lower-cased. */
  function Capitalize(s: string): (r: string)
    ensures |r| == |s|
    ensures s != [] ==> r[0] == UpperChar(s[0]) && r[1..] == Lower(s[1..])
  {
    if s == [] then [] else [UpperChar(s[0])] + Lower(s[1..])
  }

  predicate StartsWith(s: string, p: string) {
    |p| <= |s| && s[..|p|] == p
  }

  predicate EndsWith(s: string, p: string) {
    |p| <= |s| && s[|s| - |p|..] == p
  }

  /** `p` occurs in `s` at position `i`. */
  predicate OccursAt(s: string, p: string, i: int) {
    0 <= i && i + |p| <= |s| && s[i..i + |p|] == p
  }

  /** Python's `p in s` for strings, scanning from the left. */
  function Contains(s: string, p: string): bool
    decreases |s|
  {
    StartsWith(s, p) || (|s| > 0 && Contains(s[1..], p))
  }

  /** The scan finds `p` exactly when `p` occurs at some position. */
  lemma {:induction false} ContainsIff(s: string, p: string)
    ensures Contains(s, p) <==> exists i :: OccursAt(s, p, i)
    decreases |s|
  {
    if StartsWith(s, p) {
      assert OccursAt(s, p, 0);
    } else if |s| > 0 {
      ContainsIff(s[1..], p);
      if Contains(s[1..], p) {
        var i :| OccursAt(s[1..], p, i);
        assert s[i + 1..i + 1 + |p|] == s[1..][i..i + |p|];
        assert OccursAt(s, p, i + 1);
      } else {
        forall i | OccursAt(s, p, i) ensures false {
          assert i != 0;
          assert s[1..][i - 1..i - 1 + |p|] == s[i..i + |p|];
          assert OccursAt(s[1..], p, i - 1);
        }
      }
    } else {
      assert forall i :: !OccursAt(s, p, i);
    }
  }

  /** Text shorter than `p` cannot contain it. */
  lemma {:induction false} ShortLacks(s: string, p: string)
    requires |s| < |p|
    ensures !Contains(s, p)
    decreases |s|
  {
    if |s| > 0 {
      ShortLacks(s[1..], p);
    }
  }

  /** An occurrence in a slice is an occurrence in the whole text. */
  lemma ContainsSlice(s: string, a: nat, b: nat, p: string)
    requires a <= b <= |s|
    requires Contains(s[a..b], p)
    ensures Contains(s, p)
  {
    ContainsIff(s[a..b], p);
    var t := s[a..b];
    var i :| OccursAt(t, p, i);
    forall k | 0 <= k < |p| ensures s[a + i + k] == p[k] {
      assert t[i..i + |p|][k] == p[k];
      assert t[i + k] == s[a + i + k];
    }
    assert s[a + i..a + i + |p|] == p;
    assert OccursAt(s, p, a + i);
    ContainsIff(s, p);
  }

  /** Index of the first `c` at or after `from`. */
  function FirstIndexFrom(s: string, c: char, from: nat): (r: Option<nat>)
    decreases |s| - from
    ensures r.Some? ==> from <= r.value < |s| && s[r.value] == c
    ensures r.Some? ==> forall k :: from <= k < r.value ==> s[k] != c
    ensures r.None? ==> forall k :: from <= k < |s| ==> s[k] != c
  {
    if from >= |s| then None
    else if s[from] == c then Some(from)
    else FirstIndexFrom(s, c, from + 1)
  }

  /** Index of the last `c` in `s`. */
  function LastIndexOf(s: string, c: char): (r: Option<nat>)
    ensures r.Some? ==> r.value < |s| && s[r.value] == c
    ensures r.Some? ==> forall k :: r.value < k < |s| ==> s[k] != c
    ensures r.None? ==> forall k :: 0 <= k < |s| ==> s[k] != c
  {
    if s == [] then None
    else if s[|s| - 1] == c then Some(|s| - 1)
    else LastIndexOf(s[..|s| - 1], c)
  }

  /** Python's `sep.join(parts)` for a one-character separator. */
  function Join(parts: seq<string>, sep: char): string
    requires |parts| >= 1
  {
    if |parts| == 1 then parts[0] else parts[0] + [sep] + Join(parts[1..], sep)
  }

  /** Python's `s.split(sep)` for a one-character separator: never empty, no part holds the
      separator, and joining the parts gives back `s`. */
  function Split(s: string, sep: char): (parts: seq<string>)
    ensures |parts| >= 1
    ensures forall k :: 0 <= k < |parts| ==> sep !in parts[k]
    ensures Join(parts, sep) == s
    decreases |s|
  {
    match FirstIndexFrom(s, sep, 0)
    case None => [s]
    case Some(i) =>
      var rest := Split(s[i + 1..], sep);
      assert ([s[..i]] + rest)[1..] == rest;
      assert s == s[..i] + [sep] + s[i + 1..];
      [s[..i]] + rest
  }

  /** Text without the separator splits into itself. */
  lemma SplitWithoutSep(s: string, sep: char)
    requires sep !in s
    ensures Split(s, sep) == [s]
  {
  }

  /** `s.split(c)[0]`: the text before the first `c`, or all of `s` without one. */
  function BeforeFirst(s: string, c: char): (r: string)
    ensures StartsWith(s, r) && c !in r
    ensures r == s || s[|r|] == c
  {
    match FirstIndexFrom(s, c, 0)
    case Some(i) => s[..i]
    case None => s
  }

  /** `s.split(c)[-1]`: the text after the last `c`, or all of `s` without one. */
  function AfterLast(s: string, c: char): (r: string)
    ensures EndsWith(s, r) && c !in r
    ensures c in s ==> |r| < |s| && s[|s| - |r| - 1] == c
    ensures c !in s ==> r == s
  {
    match LastIndexOf(s, c)
    case Some(i) => s[i + 1..]
    case None => s
  }

  /** Splitting distributes over a separator: the parts of `a + sep + b` are those of `a`
      followed by those of `b`. */
  /** The first separator scanning from `from` is the earliest one at or after it. */
  lemma {:induction false} FirstIndexIs(s: string, c: char, from: nat, i: nat)
    requires from <= i < |s| && s[i] == c
    requires forall k :: from <= k < i ==> s[k] != c
    ensures FirstIndexFrom(s, c, from) == Some(i)
    decreases i - from
  {
    if from < i {
      FirstIndexIs(s, c, from + 1, i);
    }
  }

  lemma {:induction false} SplitAround(a: string, sep: char, b: string)
    ensures Split(a + [sep] + b, sep) == Split(a, sep) + Split(b, sep)
    decreases |a|
  {
    var s := a + [sep] + b;
    assert s[|a|] == sep;
    match FirstIndexFrom(a, sep, 0)
    case None =>
      FirstIndexIs(s, sep, 0, |a|);
      assert s[..|a|] == a && s[|a| + 1..] == b;
    case Some(i) =>
      FirstIndexIs(s, sep, 0, i);
      var rest := a[i + 1..];
      assert s[..i] == a[..i];
      assert s[i + 1..] == rest + [sep] + b;
      assert Split(s, sep) == [a[..i]] + Split(rest + [sep] + b, sep);
      SplitAround(rest, sep, b);
      assert Split(a, sep) == [a[..i]] + Split(rest, sep);
  }

  /** Python's `s.replace(p, "")`: removes the occurrences of `p` found scanning from the
      left, without overlaps, in a single pass. */
  function RemoveAll(s: string, p: string): (r: string)
    requires p != []
    ensures |r| <= |s|
    decreases |s|
  {
    if |s| < |p| then s
    else if s[..|p|] == p then RemoveAll(s[|p|..], p)
    else [s[0]] + RemoveAll(s[1..], p)
  }

  /** A prefix in which no occurrence of `p` starts passes through the removal untouched. */
  lemma {:induction false} RemoveAllKeepsPrefix(a: string, b: string, p: string)
    requires p != []
    requires forall i :: 0 <= i < |a| ==> !StartsWith((a + b)[i..], p)
    ensures RemoveAll(a + b, p) == a + RemoveAll(b, p)
    decreases |a|
  {
    if a != [] {
      var s := a + b;
      assert !StartsWith(s[0..], p);
      assert s[0..] == s;
      if |s| < |p| {
        ShortRemovalIsIdentity(b, p);
      } else {
        assert s[1..] == a[1..] + b;
        forall i | 0 <= i < |a[1..]| ensures !StartsWith((a[1..] + b)[i..], p) {
          assert (a[1..] + b)[i..] == s[i + 1..];
        }
        assert s[..|p|] != p;
        RemoveAllKeepsPrefix(a[1..], b, p);
        calc {
          RemoveAll(s, p);
          [s[0]] + RemoveAll(s[1..], p);
          [a[0]] + (a[1..] + RemoveAll(b, p));
          { assert a == [a[0]] + a[1..]; }
          a + RemoveAll(b, p);
        }
      }
    } else {
      assert a + b == b;
    }
  }

  lemma ShortRemovalIsIdentity(s: string, p: string)
    requires p != [] && |s| < |p|
    ensures RemoveAll(s, p) == s
  {
  }

  /** Text in which no occurrence of `p` starts is left unchanged by the removal. */
  lemma RemoveAllAbsent(s: string, p: string)
    requires p != []
    requires forall i :: 0 <= i < |s| ==> !StartsWith(s[i..], p)
    ensures RemoveAll(s, p) == s
  {
    assert s + [] == s;
    RemoveAllKeepsPrefix(s, [], p);
  }

  /** The code-fence marker. */
  const Fence: string := "```"

  /** Removal keeps a first character that cannot begin a fence. */
  lemma RemovalKeepsHead(s: string)
    requires |s| >= 1 && s[0] != '`'
    ensures RemoveAll(s, Fence) != [] && RemoveAll(s, Fence)[0] == s[0]
  {
  }

  /** After `s.replace("```", "")` no fence is left: the single pass cannot glue a new one
      together, because a run of backticks keeps fewer than three of them. */
  lemma {:induction false} RemovalLeavesNoFence(s: string)
    ensures !Contains(RemoveAll(s, Fence), Fence)
    decreases |s|
  {
    if |s| < 3 {
      ShortLacks(s, Fence);
    } else if s[..3] == Fence {
      RemovalLeavesNoFence(s[3..]);
    } else {
      var t := RemoveAll(s[1..], Fence);
      RemovalLeavesNoFence(s[1..]);
      var r := [s[0]] + t;
      assert RemoveAll(s, Fence) == r;
      assert r[1..] == t;
      if s[0] == '`' {
        if s[1] != '`' {
          RemovalKeepsHead(s[1..]);
        } else {
          assert s[2] != '`';
          var x := s[1..];
          if |x| >= 3 {
            assert x[..3] != Fence;
            assert t == [x[0]] + RemoveAll(x[1..], Fence);
            RemovalKeepsHead(x[1..]);
            assert t[1] == s[2];
          } else {
            assert t == x;
          }
        }
        assert !StartsWith(r, Fence);
      }
    }
  }
}
