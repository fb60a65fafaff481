/** Strings and bytes: the few operations of Python's `str` that the client relies on. */
module Text {
  import opened Wrappers

  /** One octet of a response body. */
  type byte = b: int | 0 <= b < 256

  function Min(a: int, b: int): int { if a <= b then a else b }

  predicate StartsWith(s: string, p: string) { |p| <= |s| && s[..|p|] == p }

  predicate EndsWith(s: string, p: string) { |p| <= |s| && s[|s| - |p|..] == p }

  /** `p` occurs in `s` starting at index `i`. */
  predicate OccursAt(s: string, p: string, i: int) { 0 <= i && i + |p| <= |s| && s[i..i + |p|] == p }

  /** Python's `p in s`. */
  predicate Contains(s: string, p: string) { exists i | 0 <= i <= |s| - |p| :: OccursAt(s, p, i) }

  lemma AppendAssoc<T>(a: seq<T>, b: seq<T>, c: seq<T>)
    ensures a + (b + c) == a + b + c
  {
  }

  lemma ContainsAppended(a: string, b: string, c: string)
    ensures Contains(a + b + c, b)
  {
    assert (a + b + c)[|a|..|a| + |b|] == b;
    assert OccursAt(a + b + c, b, |a|);
  }

  /** An occurrence inside an occurrence is an occurrence. */
  lemma ContainsWithin(s: string, t: string, p: string)
    requires Contains(s, t) && Contains(t, p)
    ensures Contains(s, p)
  {
    var i :| 0 <= i <= |s| - |t| && OccursAt(s, t, i);
    var j :| 0 <= j <= |t| - |p| && OccursAt(t, p, j);
    forall k | 0 <= k < |p|
      ensures s[i + j..i + j + |p|][k] == p[k]
    {
      assert p[k] == t[j + k] == s[i + j + k];
    }
    assert s[i + j..i + j + |p|] == p;
    assert OccursAt(s, p, i + j);
  }

  function LowerChar(c: char): char { if 'A' <= c <= 'Z' then (c as int + 32) as char else c }

  /** `str.lower()` restricted to ASCII letters. */
  function Lower(s: string): string { seq(|s|, i requires 0 <= i < |s| => LowerChar(s[i])) }

  /** Bytes read one character per byte (ISO 8859-1). */
  function Latin1(bs: seq<byte>): string { seq(|bs|, i requires 0 <= i < |bs| => bs[i] as char) }

  predicate IsSpace(c: char) { c == ' ' || c == '\t' || c == '\n' || c == '\r' || c == '\U{B}' || c == '\U{C}' }

  /** `str.strip()` over ASCII whitespace. */
  function Strip(s: string): (r: string)
    ensures |r| <= |s|
    decreases |s|
  {
    if |s| > 0 && IsSpace(s[0]) then Strip(s[1..])
    else if |s| > 0 && IsSpace(s[|s| - 1]) then Strip(s[..|s| - 1])
    else s
  }

  /** Index of the first `c` in `s`, Python's `s.find(c)` with -1 as None. */
  function IndexOf(s: string, c: char): (r: Option<nat>)
    ensures r.None? <==> c !in s
    ensures r.Some? ==> r.value < |s| && s[r.value] == c && c !in s[..r.value]
    decreases |s|
  {
    if s == [] then None
    else if s[0] == c then Some(0)
    else match IndexOf(s[1..], c)
      case None => None
      case Some(k) => assert s[..k + 1] == [s[0]] + s[1..][..k]; Some(k + 1)
  }

  /** `s.split(c)` for a one-character separator. */
  function SplitOn(s: string, c: char): (r: seq<string>)
    ensures |r| >= 1
    ensures forall k | 0 <= k < |r| :: c !in r[k]
    decreases |s|
  {
    if s == [] then [[]]
    else if s[0] == c then [[]] + SplitOn(s[1..], c)
    else
      var rest := SplitOn(s[1..], c);
      [[s[0]] + rest[0]] + rest[1..]
  }

  /** `c.join(pieces)` for a one-character separator; the inverse of SplitOn. */
  function JoinWith(pieces: seq<string>, c: char): string
    decreases |pieces|
  {
    if pieces == [] then []
    else if |pieces| == 1 then pieces[0]
    else pieces[0] + [c] + JoinWith(pieces[1..], c)
  }

  lemma {:induction false} SplitOnFree(a: string, c: char)
    requires c !in a
    ensures SplitOn(a, c) == [a]
    decreases |a|
  {
    if a != [] {
      assert a[0] != c;
      SplitOnFree(a[1..], c);
      assert [a[0]] + a[1..] == a;
    }
  }

  lemma {:induction false} SplitOnFirst(a: string, b: string, c: char)
    requires c !in a
    ensures SplitOn(a + [c] + b, c) == [a] + SplitOn(b, c)
    decreases |a|
  {
    if a == [] {
      assert a + [c] + b == [c] + b;
    } else {
      var s := a + [c] + b;
      assert s[0] == a[0] && a[0] != c;
      assert s[1..] == a[1..] + [c] + b;
      SplitOnFirst(a[1..], b, c);
      assert [a[0]] + a[1..] == a;
    }
  }

  /** Splitting a join of separator-free pieces gives the pieces back. */
  lemma {:induction false} SplitJoin(pieces: seq<string>, c: char)
    requires |pieces| >= 1
    requires forall k | 0 <= k < |pieces| :: c !in pieces[k]
    ensures SplitOn(JoinWith(pieces, c), c) == pieces
    decreases |pieces|
  {
    if |pieces| == 1 {
      SplitOnFree(pieces[0], c);
    } else {
      SplitOnFirst(pieces[0], JoinWith(pieces[1..], c), c);
      SplitJoin(pieces[1..], c);
    }
  }

  function DigitChar(d: nat): char
    requires d < 10
  {
    ('0' as int + d) as char
  }

  /** Python's `str(n)` for a non-negative integer. */
  function NatToString(n: nat): (r: string)
    ensures |r| >= 1
    decreases n
  {
    if n < 10 then [DigitChar(n)] else NatToString(n / 10) + [DigitChar(n % 10)]
  }

  /** `s` with `q` before, between and after every character: what `s.replace("", q)` gives. */
  function InsertAround(s: string, q: string): (r: string)
    ensures |r| == |s| + (|s| + 1) * |q|
    decreases |s|
  {
    if s == [] then q else q + [s[0]] + InsertAround(s[1..], q)
  }

  /**
   * Python's `s.replace(p, q)`: scanning left to right, every occurrence of `p` that does not
   * overlap an earlier replaced one becomes `q`; an empty `p` puts `q` around every character.
   */
  function Replace(s: string, p: string, q: string): string
  {
    if p == [] then InsertAround(s, q) else ReplaceFrom(s, p, q, 0)
  }

  /** The scan of `Replace` for a non-empty `p`, from index `k` of `s` on. */
  function ReplaceFrom(s: string, p: string, q: string, k: nat): string
    requires p != [] && k <= |s|
    decreases |s| - k
  {
    if k + |p| > |s| then s[k..]
    else if OccursAt(s, p, k) then q + ReplaceFrom(s, p, q, k + |p|)
    else [s[k]] + ReplaceFrom(s, p, q, k + 1)
  }

  /** From `k` on, a scan that meets no occurrence of `p` copies the rest of `s`. */
  lemma {:induction false} ReplaceFromAbsent(s: string, p: string, q: string, k: nat)
    requires p != [] && k <= |s|
    requires forall j | k <= j <= |s| - |p| :: !OccursAt(s, p, j)
    ensures ReplaceFrom(s, p, q, k) == s[k..]
    decreases |s| - k
  {
    if k + |p| <= |s| {
      ReplaceFromAbsent(s, p, q, k + 1);
      assert [s[k]] + s[k + 1..] == s[k..];
    }
  }

  /** A string in which `p` does not occur comes back unchanged. */
  lemma ReplaceAbsent(s: string, p: string, q: string)
    requires p != [] && !Contains(s, p)
    ensures Replace(s, p, q) == s
  {
    ReplaceFromAbsent(s, p, q, 0);
  }

  /**
   * From `k` on, the first occurrence `i` of `p` is the first one replaced, and the scan
   * resumes right after it.
   */
  lemma {:induction false} ReplaceFromFirst(s: string, p: string, q: string, k: nat, i: nat)
    requires p != [] && k <= i && OccursAt(s, p, i)
    requires forall j | k <= j < i :: !OccursAt(s, p, j)
    ensures ReplaceFrom(s, p, q, k) == s[k..i] + q + ReplaceFrom(s, p, q, i + |p|)
    decreases i - k
  {
    var rest := ReplaceFrom(s, p, q, i + |p|);
    if k == i {
      ReplaceFromHit(s, p, q, i);
    } else {
      ReplaceFromSkip(s, p, q, k);
      ReplaceFromFirst(s, p, q, k + 1, i);
      calc {
        ReplaceFrom(s, p, q, k);
        [s[k]] + (s[k + 1..i] + q + rest);
        { AppendAssoc([s[k]], s[k + 1..i] + q, rest); AppendAssoc([s[k]], s[k + 1..i], q); }
        [s[k]] + s[k + 1..i] + q + rest;
        { PrependSlice(s, k, i); }
        s[k..i] + q + rest;
      }
    }
  }

  /** An occurrence at `k` is replaced and skipped over. */
  lemma ReplaceFromHit(s: string, p: string, q: string, k: nat)
    requires p != [] && OccursAt(s, p, k)
    ensures ReplaceFrom(s, p, q, k) == s[k..k] + q + ReplaceFrom(s, p, q, k + |p|)
  {
    assert s[k..k] + q == q;
  }

  /** A position where `p` does not occur is copied. */
  lemma ReplaceFromSkip(s: string, p: string, q: string, k: nat)
    requires p != [] && k + |p| <= |s| && !OccursAt(s, p, k)
    ensures ReplaceFrom(s, p, q, k) == [s[k]] + ReplaceFrom(s, p, q, k + 1)
  {
  }

  lemma PrependSlice(s: string, k: nat, i: nat)
    requires k < i <= |s|
    ensures [s[k]] + s[k + 1..i] == s[k..i]
  {
  }

  /**
   * The first occurrence of `p` is the first one replaced, and the scan resumes right after
   * it: together with ReplaceAbsent this pins Replace down as the left-to-right,
   * non-overlapping replacement.
   */
  lemma ReplaceFirstOccurrence(s: string, p: string, q: string, i: nat)
    requires p != [] && OccursAt(s, p, i)
    requires forall j | 0 <= j < i :: !OccursAt(s, p, j)
    ensures Replace(s, p, q) == s[..i] + q + ReplaceFrom(s, p, q, i + |p|)
  {
    ReplaceFromFirst(s, p, q, 0, i);
  }

}
