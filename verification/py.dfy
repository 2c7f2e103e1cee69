/**
 * The handful of Python built-in string and sequence operations the system
 * relies on, written out so that their edge cases are explicit.
 *
 * Case mapping and whitespace are ASCII only: `Lower` maps 'A'..'Z' and
 * `IsSpace` recognises the ASCII whitespace characters Python's `str.isspace`
 * accepts (space, \t, \n, \r, \v, \f and the separators \x1c..\x1f).
 */
module Py {
  import opened Wrappers

  // ---------------------------------------------------------------- characters

  predicate IsSpace(c: char) {
    c == ' ' || c == '\t' || c == '\n' || c == '\r' || c == '\U{B}' || c == '\U{C}'
    || ('\U{1C}' <= c <= '\U{1F}')
  }

  function LowerChar(c: char): (r: char)
    ensures 'A' <= c <= 'Z' ==> 'a' <= r <= 'z'
    ensures !('A' <= c <= 'Z') ==> r == c
  {
    if 'A' <= c <= 'Z' then (c as int + 32) as char else c
  }

  /** `str.lower()` */
  function Lower(s: string): (r: string)
    ensures |r| == |s|
    ensures forall i :: 0 <= i < |s| ==> r[i] == LowerChar(s[i])
  {
    seq(|s|, i requires 0 <= i < |s| => LowerChar(s[i]))
  }

  lemma LowerIdempotent(s: string)
    ensures Lower(Lower(s)) == Lower(s)
  {
    assert forall i :: 0 <= i < |s| ==> LowerChar(LowerChar(s[i])) == LowerChar(s[i]);
  }

  lemma LowerConcat(a: string, b: string)
    ensures Lower(a + b) == Lower(a) + Lower(b)
  {
    assert forall i :: 0 <= i < |a + b| ==> Lower(a + b)[i] == (Lower(a) + Lower(b))[i];
  }

  lemma LowerEmpty(s: string)
    ensures Lower(s) == [] <==> s == []
  {
  }

  // ---------------------------------------------------------------- stripping

  /** `str.lstrip()` */
  function LStrip(s: string): (r: string)
    ensures |r| <= |s| && r == s[|s| - |r|..]
    ensures r == [] || !IsSpace(r[0])
    ensures forall i :: 0 <= i < |s| - |r| ==> IsSpace(s[i])
  {
    if |s| > 0 && IsSpace(s[0]) then LStrip(s[1..]) else s
  }

  /** `lstrip` removes a leading run of whitespace and stops at the first other character. */
  lemma {:induction false} LStripSkipsSpace(w: string, s: string)
    requires forall i :: 0 <= i < |w| ==> IsSpace(w[i])
    ensures LStrip(w + s) == LStrip(s)
    decreases |w|
  {
    if w == [] {
      assert w + s == s;
    } else {
      assert (w + s)[0] == w[0];
      assert IsSpace(w[0]);
      assert LStrip(w + s) == LStrip((w + s)[1..]);
      assert (w + s)[1..] == w[1..] + s;
      LStripSkipsSpace(w[1..], s);
    }
  }

  /** `str.rstrip()` */
  function RStrip(s: string): (r: string)
    ensures |r| <= |s| && r == s[..|r|]
    ensures r == [] || !IsSpace(r[|r| - 1])
    ensures forall i :: |r| <= i < |s| ==> IsSpace(s[i])
  {
    if |s| > 0 && IsSpace(s[|s| - 1]) then RStrip(s[..|s| - 1]) else s
  }

  /** `str.strip()` */
  function Strip(s: string): (r: string)
    ensures |r| <= |s|
    ensures r == [] || (!IsSpace(r[0]) && !IsSpace(r[|r| - 1]))
  {
    RStrip(LStrip(s))
  }

  // ---------------------------------------------------------------- searching

  /** `sub in s` */
  /** `sub` occurs in `s` starting at index `i`. */
  predicate OccursAt(s: string, sub: string, i: int) {
    0 <= i && i + |sub| <= |s| && s[i..i + |sub|] == sub
  }

  /** Python's `sub in s`. */
  predicate Contains(s: string, sub: string) {
    exists i :: 0 <= i <= |s| - |sub| && OccursAt(s, sub, i)
  }

  /** A string lacking one of `sub`'s characters does not contain `sub`. */
  lemma NotContainsChar(s: string, sub: string, k: nat)
    requires k < |sub| && sub[k] !in s
    ensures !Contains(s, sub)
  {
    forall i | 0 <= i <= |s| - |sub|
      ensures !OccursAt(s, sub, i)
    {
      assert s[i..i + |sub|][k] == s[i + k];
    }
  }

  lemma ContainsInfix(a: string, sub: string, b: string)
    ensures Contains(a + sub + b, sub)
  {
    var s := a + sub + b;
    assert s[|a|..|a| + |sub|] == sub;
    assert OccursAt(s, sub, |a|);
  }

  /** Putting text in front keeps every occurrence. */
  lemma ContainsAfter(pre: string, s: string, sub: string)
    requires Contains(s, sub)
    ensures Contains(pre + s, sub)
  {
    var k :| 0 <= k <= |s| - |sub| && OccursAt(s, sub, k);
    assert (pre + s)[|pre| + k..|pre| + k + |sub|] == s[k..k + |sub|];
    assert OccursAt(pre + s, sub, |pre| + k);
  }

  /** The index of the first occurrence of `sep` in `s` (Python's `str.find`). */
  function IndexOf(s: string, sep: string): (r: Option<nat>)
    ensures r.Some? ==> OccursAt(s, sep, r.value)
    ensures r.Some? ==> forall j :: 0 <= j < r.value ==> !OccursAt(s, sep, j)
    ensures r.None? <==> !Contains(s, sep)
    decreases |s|
  {
    if OccursAt(s, sep, 0) then Some(0)
    else if |s| == 0 then None
    else
      DropFirst(s, sep);
      match IndexOf(s[1..], sep)
      case None => None
      case Some(k) =>
        assert OccursAt(s, sep, k + 1);
        Some(k + 1)
  }

  /** Past index 0, `s` holds what `s[1..]` holds, one place further on. */
  lemma DropFirst(s: string, sep: string)
    requires |s| > 0
    ensures forall i :: 1 <= i ==> (OccursAt(s, sep, i) <==> OccursAt(s[1..], sep, i - 1))
  {
    forall i | 1 <= i
      ensures OccursAt(s, sep, i) <==> OccursAt(s[1..], sep, i - 1)
    {
      if i + |sep| <= |s| {
        var a, b := s[i..i + |sep|], s[1..][i - 1..i - 1 + |sep|];
        assert |a| == |b| && forall k :: 0 <= k < |a| ==> a[k] == b[k];
        assert a == b;
      }
    }
  }

  /** `s.split(sep, 1)` when `sep in s`: the text before and after the first occurrence. */
  function SplitOnce(s: string, sep: string): (r: (string, string))
    requires Contains(s, sep)
    ensures s == r.0 + sep + r.1
    ensures IndexOf(s, sep) == Some(|r.0|)
    ensures sep != [] ==> !Contains(r.0, sep)
  {
    var i := IndexOf(s, sep).value;
    forall j | 0 <= j <= i - |sep| && OccursAt(s[..i], sep, j)
      ensures OccursAt(s, sep, j)
    {
      assert s[..i][j..j + |sep|] == s[j..j + |sep|];
    }
    assert s == s[..i] + sep + s[i + |sep|..];
    (s[..i], s[i + |sep|..])
  }

  // ---------------------------------------------------------------- de-duplication

  /** First occurrences, in order: the keys of a dict filled from `s`, or the
      list grown by `if x not in out: out.append(x)`. */
  function Dedup<T(==,!new)>(s: seq<T>): (r: seq<T>)
    ensures forall x :: x in r <==> x in s
    ensures forall i, j :: 0 <= i < j < |r| ==> r[i] != r[j]
  {
    if s == [] then []
    else
      var d := Dedup(s[..|s| - 1]);
      if s[|s| - 1] in d then d else d + [s[|s| - 1]]
  }

  /** De-duplicating a prefix gives a prefix of the de-duplicated whole. */
  lemma {:induction false} DedupPrefix<T(!new)>(s: seq<T>, i: nat)
    requires i <= |s|
    ensures Dedup(s[..i]) <= Dedup(s)
    decreases |s| - i
  {
    if i < |s| {
      DedupPrefix(s, i + 1);
      assert s[..i + 1][..i] == s[..i];
    } else {
      assert s[..i] == s;
    }
  }

  /** `a` is `b` with some elements left out, the rest in order. */
  predicate IsSubseq<T(==)>(a: seq<T>, b: seq<T>)
    decreases |b|
  {
    if a == [] then true
    else if b == [] then false
    else if a[|a| - 1] == b[|b| - 1] then IsSubseq(a[..|a| - 1], b[..|b| - 1])
    else IsSubseq(a, b[..|b| - 1])
  }

  lemma {:induction false} SubseqDropLast<T>(a: seq<T>, b: seq<T>)
    requires a != [] && IsSubseq(a, b)
    ensures IsSubseq(a[..|a| - 1], b)
    decreases |b|, 0
  {
    var a' := a[..|a| - 1];
    if a' != [] && b != [] {
      if a[|a| - 1] == b[|b| - 1] {
        SubseqExtend(a', b[..|b| - 1], b[|b| - 1]);
        assert b[..|b| - 1] + [b[|b| - 1]] == b;
      } else {
        SubseqDropLast(a, b[..|b| - 1]);
        SubseqExtend(a', b[..|b| - 1], b[|b| - 1]);
        assert b[..|b| - 1] + [b[|b| - 1]] == b;
      }
    }
  }

  /** A subsequence stays one when the larger sequence grows. */
  lemma {:induction false} SubseqExtend<T>(a: seq<T>, b: seq<T>, x: T)
    requires IsSubseq(a, b)
    ensures IsSubseq(a, b + [x])
    decreases |b|, 1
  {
    assert (b + [x])[..|b|] == b;
    if a != [] && a[|a| - 1] == x {
      SubseqDropLast(a, b);
    }
  }

  lemma SubseqSnoc<T>(a: seq<T>, b: seq<T>, x: T)
    requires IsSubseq(a, b)
    ensures IsSubseq(a + [x], b + [x])
  {
    assert (a + [x])[..|a|] == a;
    assert (b + [x])[..|b|] == b;
  }

  // ---------------------------------------------------------------- splitting

  /** `s.split(c)` for a one-character separator: always at least one piece. */
  function SplitOn(s: string, c: char): (r: seq<string>)
    ensures |r| >= 1
    ensures forall k :: 0 <= k < |r| ==> c !in r[k]
  {
    if s == [] then [""]
    else
      var rest := SplitOn(s[1..], c);
      if s[0] == c then [""] + rest else [[s[0]] + rest[0]] + rest[1..]
  }

  /** The longest prefix of `s` that holds no whitespace. */
  function WordPrefix(s: string): (w: string)
    ensures w <= s
    ensures forall i :: 0 <= i < |w| ==> !IsSpace(w[i])
    ensures |w| < |s| ==> IsSpace(s[|w|])
  {
    if s == [] || IsSpace(s[0]) then [] else [s[0]] + WordPrefix(s[1..])
  }

  /** `s.split()` with no argument: the maximal runs of non-whitespace. */
  function Words(s: string): (r: seq<string>)
    ensures forall k :: 0 <= k < |r| ==> r[k] != [] && forall i :: 0 <= i < |r[k]| ==> !IsSpace(r[k][i])
    decreases |s|
  {
    if s == [] then []
    else if IsSpace(s[0]) then Words(s[1..])
    else
      var w := WordPrefix(s);
      [w] + Words(s[|w|..])
  }

  /** `re.sub(r"\s+", " ", s)`: every run of whitespace becomes one space. */
  lemma {:induction false} SplitOnNoSep(a: string, c: char)
    requires c !in a
    ensures SplitOn(a, c) == [a]
    decreases |a|
  {
    if a != [] {
      SplitOnNoSep(a[1..], c);
      assert a == [a[0]] + a[1..];
    }
  }

  lemma {:induction false} SplitOnCons(a: string, b: string, c: char)
    requires c !in a
    ensures SplitOn(a + [c] + b, c) == [a] + SplitOn(b, c)
    decreases |a|
  {
    var s := a + [c] + b;
    if a == [] {
      assert s[1..] == b;
    } else {
      assert s[1..] == a[1..] + [c] + b;
      SplitOnCons(a[1..], b, c);
      assert a == [a[0]] + a[1..];
    }
  }

  /** `sep.join(parts).split(sep) == parts` when no part holds the separator. */
  lemma {:induction false} SplitOnJoin(parts: seq<string>, c: char)
    requires parts != []
    requires forall k :: 0 <= k < |parts| ==> c !in parts[k]
    ensures SplitOn(Join([c], parts), c) == parts
    decreases |parts|
  {
    if |parts| == 1 {
      SplitOnNoSep(parts[0], c);
    } else {
      SplitOnJoin(parts[1..], c);
      SplitOnCons(parts[0], Join([c], parts[1..]), c);
      assert parts == [parts[0]] + parts[1..];
    }
  }

  /** A non-empty run of non-whitespace characters, as `str.split()` yields. */
  predicate IsWord(w: string) {
    w != [] && forall i :: 0 <= i < |w| ==> !IsSpace(w[i])
  }

  lemma {:induction false} WordPrefixOf(w: string, t: string)
    requires forall i :: 0 <= i < |w| ==> !IsSpace(w[i])
    requires t == [] || IsSpace(t[0])
    ensures WordPrefix(w + t) == w
    decreases |w|
  {
    if w == [] {
      assert w + t == t;
    } else {
      assert (w + t)[1..] == w[1..] + t;
      WordPrefixOf(w[1..], t);
      assert w == [w[0]] + w[1..];
    }
  }

  /** `" ".join(words).split() == words` when every element is a word. */
  lemma {:induction false} WordsOfJoin(ws: seq<string>)
    requires forall k :: 0 <= k < |ws| ==> IsWord(ws[k])
    ensures Words(Join(" ", ws)) == ws
    decreases |ws|
  {
    if |ws| == 1 {
      var w := ws[0];
      WordPrefixOf(w, []);
      assert w + [] == w;
      assert w[|w|..] == [];
    } else if |ws| > 1 {
      var w, rest := ws[0], Join(" ", ws[1..]);
      var s := w + " " + rest;
      assert s == w + (" " + rest);
      WordPrefixOf(w, " " + rest);
      assert s[|w|..] == " " + rest;
      assert (" " + rest)[1..] == rest;
      WordsOfJoin(ws[1..]);
      assert ws == [w] + ws[1..];
    }
  }

  function CollapseSpaces(s: string): (r: string)
    ensures |r| <= |s|
    decreases |s|
  {
    if s == [] then []
    else if IsSpace(s[0]) then " " + CollapseSpaces(LStrip(s))
    else [s[0]] + CollapseSpaces(s[1..])
  }

  /** `sep.join(parts)` */
  function Join(sep: string, parts: seq<string>): string
  {
    if |parts| == 0 then ""
    else if |parts| == 1 then parts[0]
    else parts[0] + sep + Join(sep, parts[1..])
  }

  lemma {:induction false} JoinAppend(sep: string, parts: seq<string>, last: string)
    requires parts != []
    ensures Join(sep, parts + [last]) == Join(sep, parts) + sep + last
    decreases |parts|
  {
    if |parts| == 1 {
      assert parts + [last] == [parts[0], last];
    } else {
      assert (parts + [last])[1..] == parts[1..] + [last];
      JoinAppend(sep, parts[1..], last);
    }
  }

  // ---------------------------------------------------------------- slicing

  /** The index Python uses for a slice bound `i` on a sequence of length `n`. */
  function SliceIndex(n: nat, i: int): (r: nat)
    ensures r <= n
  {
    if i < 0 then (if n + i < 0 then 0 else n + i) else if i > n then n else i
  }

  /** `s[i:]` with Python's negative-index rules. */
  function SliceFrom<T>(s: seq<T>, i: int): (r: seq<T>)
    ensures r == s[SliceIndex(|s|, i)..]
  {
    s[SliceIndex(|s|, i)..]
  }

  /** `s[:j]` with Python's negative-index rules. */
  function SliceTo<T>(s: seq<T>, j: int): (r: seq<T>)
    ensures r == s[..SliceIndex(|s|, j)]
  {
    s[..SliceIndex(|s|, j)]
  }

  /** For a positive count `k`, `s[-k:]` is the last `min(k, |s|)` elements. */
  lemma LastK<T>(s: seq<T>, k: int)
    requires k >= 1
    ensures SliceFrom(s, -k) == s[|s| - (if k <= |s| then k else |s|)..]
  {
  }

  /** `s[-0:]` is `s[0:]`: the whole sequence. */
  lemma MinusZeroIsWhole<T>(s: seq<T>)
    ensures SliceFrom(s, -0) == s
  {
  }

  /** Taking all of `s` gives `s`. */
  lemma TakeAll<T>(s: seq<T>)
    ensures s[..|s|] == s
  {
  }

  /** The first `i + 1` elements begin with the first `i`. */
  lemma TakeNext<T>(s: seq<T>, i: nat)
    requires i < |s|
    ensures s[..i + 1][..i] == s[..i] && s[..i + 1] == s[..i] + [s[i]]
  {
  }

  /** Dropping a prefix and splitting off the last element commute. */
  lemma DropSnoc<T>(s: seq<T>, k: nat)
    requires k < |s|
    ensures s[k..] == s[..|s| - 1][k..] + [s[|s| - 1]]
  {
  }
}
