/** Separator normalisation of a handler's file path: every run of `/` and `\`
    characters collapses into one platform separator (`replace(/[/\\]+/g, path.sep)`). */
module Paths {

  /** The platform decides `path.sep`. */
  datatype Platform = Posix | Windows

  function Sep(p: Platform): char
  {
    if p.Posix? then '/' else '\\'
  }

  /** A character of the class `[/\\]`. */
  predicate IsSlash(c: char)
  {
    c == '/' || c == '\\'
  }

  predicate AllSlashes(s: string)
  {
    forall i :: 0 <= i < |s| ==> IsSlash(s[i])
  }

  /** Every slash in `s` is the separator `sep`. */
  predicate OnlySeparator(s: string, sep: char)
  {
    forall i :: 0 <= i < |s| && IsSlash(s[i]) ==> s[i] == sep
  }

  /** No two neighbouring characters of `s` are both slashes. */
  predicate NoAdjacentSlashes(s: string)
  {
    forall i, j :: 0 <= i < |s| && j == i + 1 < |s| ==> !(IsSlash(s[i]) && IsSlash(s[j]))
  }

  /** The characters of `s` that are not slashes, in their order. */
  function NonSlashes(s: string): string
  {
    if |s| == 0 then ""
    else (if IsSlash(s[0]) then "" else [s[0]]) + NonSlashes(s[1..])
  }

  /** What one character of the path becomes: an ordinary character itself, the
      first slash of a run the separator, and any later slash of the run nothing. */
  function Emit(c: char, p: Platform, inRun: bool): string
  {
    if !IsSlash(c) then [c] else if inRun then "" else [Sep(p)]
  }

  /** `s.replace(/[/\\]+/g, sep)` read from left to right, one character at a
      time. `inRun` says whether the character just before `s` was a slash. */
  function Collapse(s: string, p: Platform, inRun: bool): (r: string)
    ensures |r| <= |s|
    ensures !inRun ==> (|r| == 0 <==> |s| == 0)
    decreases |s|
  {
    if |s| == 0 then "" else Emit(s[0], p, inRun) + Collapse(s[1..], p, IsSlash(s[0]))
  }

  /** The path with every maximal run of slashes replaced by one `Sep(p)`. It is
      never longer than the path, and empty only for the empty path. */
  function Normalize(s: string, p: Platform): (r: string)
    ensures |r| <= |s|
    ensures |r| == 0 <==> |s| == 0
  {
    Collapse(s, p, false)
  }

  /** Whether the character just before the text that follows `a` is a slash,
      when `inRun` held before `a`. */
  function RunAfter(a: string, inRun: bool): bool
  {
    if |a| == 0 then inRun else IsSlash(a[|a| - 1])
  }

  /** The shape of a collapsed path: its only slash is the separator, no two
      slashes are adjacent, the other characters are kept in order; within a
      run it does not start with a slash, and otherwise it starts with one
      exactly when the path does. */
  lemma {:induction false} CollapseShape(s: string, p: Platform, inRun: bool)
    ensures var r := Collapse(s, p, inRun);
      && OnlySeparator(r, Sep(p))
      && NoAdjacentSlashes(r)
      && NonSlashes(r) == NonSlashes(s)
      && (inRun && |r| > 0 ==> !IsSlash(r[0]))
      && (!inRun && |r| > 0 ==> (IsSlash(r[0]) <==> IsSlash(s[0])))
    decreases |s|
  {
    if |s| > 0 {
      var r := Collapse(s, p, inRun);
      var next := IsSlash(s[0]);
      var head := Emit(s[0], p, inRun);
      var nt := Collapse(s[1..], p, next);
      CollapseShape(s[1..], p, next);
      assert r == head + nt;
      assert NonSlashes(s) == (if next then "" else [s[0]]) + NonSlashes(s[1..]);
      if |head| == 0 {
        assert r == nt;
      } else {
        assert r[1..] == nt;
        assert NonSlashes(r) == (if IsSlash(r[0]) then "" else [r[0]]) + NonSlashes(nt);
        assert OnlySeparator(r, Sep(p)) by {
          forall i | 0 <= i < |r| && IsSlash(r[i]) ensures r[i] == Sep(p) {
            if i > 0 { assert r[i] == nt[i - 1]; }
          }
        }
        assert NoAdjacentSlashes(r) by {
          forall i, j | 0 <= i < |r| && j == i + 1 < |r| ensures !(IsSlash(r[i]) && IsSlash(r[j])) {
            if i > 0 { assert r[i] == nt[i - 1] && r[j] == nt[j - 1]; }
            else { assert r[j] == nt[0]; }
          }
        }
      }
    }
  }

  /** The normalised path has no slash but the separator and no two adjacent
      slashes, keeps every other character in order, is empty only for the
      empty path, and starts with a slash exactly when the path does. */
  lemma NormalizeShape(s: string, p: Platform)
    ensures var r := Normalize(s, p);
      && |r| <= |s|
      && (|r| == 0 <==> |s| == 0)
      && (|r| > 0 ==> (IsSlash(r[0]) <==> IsSlash(s[0])))
      && OnlySeparator(r, Sep(p))
      && NoAdjacentSlashes(r)
      && NonSlashes(r) == NonSlashes(s)
  {
    CollapseShape(s, p, false);
  }

  /** Collapsing a collapsed path again, in the same state, changes nothing. */
  lemma {:induction false} CollapseIdempotent(s: string, p: Platform, inRun: bool)
    ensures Collapse(Collapse(s, p, inRun), p, inRun) == Collapse(s, p, inRun)
    decreases |s|
  {
    if |s| > 0 {
      var c, t := s[0], s[1..];
      var next := IsSlash(c);
      var head := Emit(c, p, inRun);
      var nt := Collapse(t, p, next);
      assert s == [c] + t;
      CollapseCons(c, t, p, inRun);
      CollapseIdempotent(t, p, next);
      if |head| == 0 {
        assert Collapse(s, p, inRun) == nt;
      } else {
        var d := head[0];
        assert head == [d];
        assert IsSlash(d) == next;
        assert Emit(d, p, inRun) == head;
        CollapseCons(d, nt, p, inRun);
      }
    }
  }

  /** Normalising an already normalised path changes nothing. */
  lemma NormalizeIdempotent(s: string, p: Platform)
    ensures Normalize(Normalize(s, p), p) == Normalize(s, p)
  {
    CollapseIdempotent(s, p, false);
  }

  /** A path without slashes is left as it is. */
  lemma {:induction false} NormalizeNoSlashes(s: string, p: Platform)
    requires forall i :: 0 <= i < |s| ==> !IsSlash(s[i])
    ensures Normalize(s, p) == s
  {
    if |s| > 0 {
      NormalizeNoSlashes(s[1..], p);
      assert s == [s[0]] + s[1..];
    }
  }

  /** Inside a run, further slashes produce nothing. */
  lemma {:induction false} CollapseInRun(s: string, p: Platform)
    requires AllSlashes(s)
    ensures Collapse(s, p, true) == ""
  {
    if |s| > 0 {
      CollapseInRun(s[1..], p);
    }
  }

  /** A non-empty run of slashes becomes exactly one separator. */
  lemma NormalizeRun(s: string, p: Platform)
    requires |s| > 0 && AllSlashes(s)
    ensures Normalize(s, p) == [Sep(p)]
  {
    CollapseInRun(s[1..], p);
  }

  /** One step of `Collapse` on a path that starts with the character `c`. */
  lemma CollapseCons(c: char, t: string, p: Platform, inRun: bool)
    ensures Collapse([c] + t, p, inRun) == Emit(c, p, inRun) + Collapse(t, p, IsSlash(c))
  {
    assert ([c] + t)[0] == c && ([c] + t)[1..] == t;
  }

  /** Collapsing a concatenation collapses the first part and then the second
      in the state the first part leaves behind. */
  lemma {:induction false} CollapseConcat(a: string, b: string, p: Platform, inRun: bool)
    ensures Collapse(a + b, p, inRun) == Collapse(a, p, inRun) + Collapse(b, p, RunAfter(a, inRun))
    decreases |a|
  {
    if |a| == 0 {
      assert a + b == b;
    } else {
      var c, t := a[0], a[1..];
      assert a == [c] + t;
      assert a + b == [c] + (t + b);
      CollapseCons(c, t + b, p, inRun);
      CollapseCons(c, t, p, inRun);
      CollapseConcat(t, b, p, IsSlash(c));
      if |t| > 0 { assert t[|t| - 1] == a[|a| - 1]; }
      var head, x, y := Emit(c, p, inRun), Collapse(t, p, IsSlash(c)), Collapse(b, p, RunAfter(a, inRun));
      ConcatAssoc(head, x, y);
    }
  }

  /** Normalisation works piecewise when the cut does not split a run of slashes.
      With `NormalizeRun` and `NormalizeNoSlashes` this determines the result
      for every path. */
  lemma NormalizeConcat(a: string, b: string, p: Platform)
    requires |a| > 0 && |b| > 0
    requires !IsSlash(a[|a| - 1]) || !IsSlash(b[0])
    ensures Normalize(a + b, p) == Normalize(a, p) + Normalize(b, p)
  {
    CollapseConcat(a, b, p, false);
    if IsSlash(a[|a| - 1]) {
      assert Collapse(b, p, true) == Collapse(b, p, false);
    }
  }

  /** Regrouping a concatenation of three strings. Stated as its own lemma so
      that the inductive step of `CollapseConcat` does not have to reassociate
      sequences inline, which makes the solver search far longer. */
  lemma ConcatAssoc(x: string, y: string, z: string)
    ensures x + (y + z) == (x + y) + z
  {
  }
}
