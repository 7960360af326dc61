/**
 * `String.prototype.replace` with a global pattern that matches one literal
 * string: every non-overlapping occurrence, found left to right, is replaced by
 * the replacement text, and scanning resumes after the replaced occurrence.
 */
module Replace {
  import opened JsSemantics

  /** `s.replace(/p/g, r)` for a literal, non-empty `p` and a literal `r`. */
  function ReplaceAll(s: string, p: string, r: string): string
    requires p != []
    decreases |s|
  {
    if s == [] then []
    else if p <= s then r + ReplaceAll(s[|p|..], p, r)
    else [s[0]] + ReplaceAll(s[1..], p, r)
  }

  /** `s.indexOf(p) > -1`. */
  predicate Contains(s: string, p: string)
    decreases |s|
  {
    p <= s || (s != [] && Contains(s[1..], p))
  }

  /** `p` occurs in `s` starting at position `i`. */
  predicate OccursAt(s: string, p: string, i: int) {
    0 <= i <= |s| - |p| && s[i..i + |p|] == p
  }

  /** `Contains` holds exactly when `p` occurs at some position of `s`. */
  lemma {:induction false} ContainsMeansOccurs(s: string, p: string)
    ensures Contains(s, p) <==> exists i :: OccursAt(s, p, i)
    decreases |s|
  {
    if p <= s {
      assert s[0..|p|] == p;
      assert OccursAt(s, p, 0);
    } else if s != [] {
      ContainsMeansOccurs(s[1..], p);
      if Contains(s[1..], p) {
        var i :| OccursAt(s[1..], p, i);
        assert s[i + 1..i + 1 + |p|] == s[1..][i..i + |p|];
        assert OccursAt(s, p, i + 1);
      }
      if i :| OccursAt(s, p, i) {
        assert i != 0;
        assert s[1..][i - 1..i - 1 + |p|] == s[i..i + |p|];
        assert OccursAt(s[1..], p, i - 1);
      }
    }
  }

  /** A text in which `p` does not occur is left unchanged. */
  lemma {:induction false} ReplaceAbsent(s: string, p: string, r: string)
    requires p != []
    requires !Contains(s, p)
    ensures ReplaceAll(s, p, r) == s
    decreases |s|
  {
    if s != [] {
      ReplaceAbsent(s[1..], p, r);
    }
  }

  /** The `indexOf` guard in front of a replace changes nothing. */
  lemma GuardedReplace(s: string, p: string, r: string)
    requires p != []
    ensures (if Contains(s, p) then ReplaceAll(s, p, r) else s) == ReplaceAll(s, p, r)
  {
    if !Contains(s, p) {
      ReplaceAbsent(s, p, r);
    }
  }

  /** A prefix without the first character of `p` cannot start an occurrence, so it is copied. */
  lemma {:induction false} ReplaceSkipsPrefix(a: string, b: string, p: string, r: string)
    requires p != [] && p[0] !in a
    ensures ReplaceAll(a + b, p, r) == a + ReplaceAll(b, p, r)
    decreases |a|
  {
    if a != [] {
      assert (a + b)[0] == a[0];
      assert !(p <= a + b);
      assert (a + b)[1..] == a[1..] + b;
      assert ReplaceAll(a + b, p, r) == [a[0]] + ReplaceAll(a[1..] + b, p, r);
      ReplaceSkipsPrefix(a[1..], b, p, r);
      assert a == [a[0]] + a[1..];
    } else {
      assert a + b == b;
    }
  }

  /** A text without the first character of `p` is left unchanged. */
  lemma ReplaceNoFirstChar(s: string, p: string, r: string)
    requires p != [] && p[0] !in s
    ensures ReplaceAll(s, p, r) == s
  {
    ReplaceSkipsPrefix(s, [], p, r);
    assert s + [] == s;
  }

  /** For a pattern that is a run of one character `c`, a text splits at any
      point where not both neighbours are `c`. */
  lemma {:induction false} ReplaceRunSplit(a: string, b: string, c: char, n: nat, r: string)
    requires n >= 1
    requires a == [] || b == [] || a[|a| - 1] != c || b[0] != c
    ensures ReplaceAll(a + b, Repeat(c, n), r) == ReplaceAll(a, Repeat(c, n), r) + ReplaceAll(b, Repeat(c, n), r)
    decreases |a|
  {
    var p := Repeat(c, n);
    var s := a + b;
    if a == [] {
      assert s == b;
    } else if p <= s {
      if |a| >= n {
        assert p <= a;
        assert s[n..] == a[n..] + b;
        ReplaceRunSplit(a[n..], b, c, n, r);
      } else {
        RunStraddles(a, b, c, n);
        assert false;
      }
    } else {
      assert !(p <= a);
      assert s[1..] == a[1..] + b;
      ReplaceRunSplit(a[1..], b, c, n, r);
    }
  }

  /** An occurrence of a run of `c` that starts in `a` and ends in `b` puts `c` on both sides. */
  lemma RunStraddles(a: string, b: string, c: char, n: nat)
    requires 0 < |a| < n
    requires Repeat(c, n) <= a + b
    ensures a[|a| - 1] == c && b != [] && b[0] == c
  {
    var s := a + b;
    assert s[|a| - 1] == Repeat(c, n)[|a| - 1];
    assert s[|a|] == Repeat(c, n)[|a|];
  }

  /** `k` copies of `r` concatenated. */
  function Copies(r: string, k: nat): (t: string)
    ensures |t| == k * |r|
  {
    if k == 0 then [] else r + Copies(r, k - 1)
  }

  /** A run shorter than the pattern holds no occurrence. */
  lemma {:induction false} ReplaceInShortRun(c: char, m: nat, n: nat, r: string)
    requires m < n
    ensures ReplaceAll(Repeat(c, m), Repeat(c, n), r) == Repeat(c, m)
  {
    if m > 0 {
      var s := Repeat(c, m);
      assert !(Repeat(c, n) <= s);
      assert s[1..] == Repeat(c, m - 1);
      ReplaceInShortRun(c, m - 1, n, r);
    }
  }

  lemma {:induction false} ReplaceInCopies(c: char, q: nat, n: nat, m: nat, r: string)
    requires n >= 1 && m < n
    ensures ReplaceAll(Copies(Repeat(c, n), q) + Repeat(c, m), Repeat(c, n), r) == Copies(r, q) + Repeat(c, m)
  {
    var p := Repeat(c, n);
    if q == 0 {
      assert Copies(p, q) + Repeat(c, m) == Repeat(c, m);
      ReplaceInShortRun(c, m, n, r);
    } else {
      var s := Copies(p, q) + Repeat(c, m);
      assert s == p + (Copies(p, q - 1) + Repeat(c, m));
      assert s[n..] == Copies(p, q - 1) + Repeat(c, m);
      ReplaceInCopies(c, q - 1, n, m, r);
    }
  }

  lemma {:induction false} CopiesOfRun(c: char, n: nat, q: nat)
    ensures forall i :: 0 <= i < |Copies(Repeat(c, n), q)| ==> Copies(Repeat(c, n), q)[i] == c
  {
    if q > 0 {
      CopiesOfRun(c, n, q - 1);
    }
  }

  /** Replacing runs of length `n` in a run of `k` copies of `c` leaves the
      remainder `k % n` at the end. */
  lemma ReplaceInRun(c: char, k: nat, n: nat, r: string)
    requires n >= 1
    ensures ReplaceAll(Repeat(c, k), Repeat(c, n), r) == Copies(r, k / n) + Repeat(c, k % n)
  {
    var split := Copies(Repeat(c, n), k / n) + Repeat(c, k % n);
    assert k == (k / n) * n + k % n;
    CopiesOfRun(c, n, k / n);
    assert |split| == k;
    assert split == Repeat(c, k);
    ReplaceInCopies(c, k / n, n, k % n, r);
  }

  /** A replacement pass keeps a non-empty text non-empty, and its first and
      last characters are either the old ones or those of the replacement. */
  lemma {:induction false} ReplaceEnds(s: string, p: string, r: string)
    requires p != [] && r != [] && s != []
    ensures ReplaceAll(s, p, r) != []
    ensures ReplaceAll(s, p, r)[0] in {s[0], r[0]}
    ensures ReplaceAll(s, p, r)[|ReplaceAll(s, p, r)| - 1] in {s[|s| - 1], r[|r| - 1]}
    decreases |s|
  {
    var t := ReplaceAll(s, p, r);
    if p <= s {
      var rest := s[|p|..];
      if rest != [] {
        ReplaceEnds(rest, p, r);
        assert s[|s| - 1] == rest[|rest| - 1];
      }
    } else {
      var rest := s[1..];
      if rest != [] {
        ReplaceEnds(rest, p, r);
        assert s[|s| - 1] == rest[|rest| - 1];
      }
    }
  }
}
