/**
 * The handful of JavaScript string operations the plugin relies on:
 * `String.prototype.trim`, `slice(start)`, `toLowerCase` and the
 * replacement of every `/\s+/` run by a dash.
 */
module Text {
  import Host

  /** The characters JavaScript counts as white space in `trim` and `\s`:
    * WhiteSpace (TAB, VT, FF, SP, NBSP, ZWNBSP and the Zs category) and
    * LineTerminator (LF, CR, LS, PS). */
  predicate IsJsWhitespace(c: char)
  {
    || ('\t' <= c <= '\r')            // TAB, LF, VT, FF, CR
    || c == ' '
    || c == '\U{A0}'
    || c == '\U{1680}'
    || ('\U{2000}' <= c <= '\U{200A}')
    || c == '\U{2028}' || c == '\U{2029}'
    || c == '\U{202F}' || c == '\U{205F}'
    || c == '\U{3000}' || c == '\U{FEFF}'
  }

  /** Every character of `s` is white space (the empty string included). */
  predicate IsBlank(s: string)
  {
    forall i :: 0 <= i < |s| ==> IsJsWhitespace(s[i])
  }

  /** `s.trimStart()`: drops the leading white space. */
  function TrimStart(s: string): (r: string)
    ensures |r| <= |s| && r == s[|s| - |r|..]
    ensures r == [] || !IsJsWhitespace(r[0])
    ensures |s| > 0 && IsJsWhitespace(s[0]) ==> |r| < |s|
  {
    if |s| > 0 && IsJsWhitespace(s[0]) then TrimStart(s[1..]) else s
  }

  /** What `trimStart` removes is white space and nothing else (with its
    * own contract: the result is the rest of `s` and does not start with
    * white space). */
  lemma {:induction false} TrimStartDropsOnlyWhitespace(s: string)
    ensures IsBlank(s[..|s| - |TrimStart(s)|])
  {
    if |s| > 0 && IsJsWhitespace(s[0]) {
      var t := s[1..];
      var k := |t| - |TrimStart(t)|;
      TrimStartDropsOnlyWhitespace(t);
      var dropped := s[..k + 1];
      forall i | 0 <= i < |dropped| ensures IsJsWhitespace(dropped[i]) {
        if i > 0 { assert dropped[i] == t[..k][i - 1]; }
      }
    }
  }

  /** `s.trimEnd()`: drops the trailing white space. */
  function TrimEnd(s: string): (r: string)
    ensures |r| <= |s| && r == s[..|r|]
    ensures IsBlank(s[|r|..])
    ensures r == [] || !IsJsWhitespace(r[|r| - 1])
  {
    if |s| > 0 && IsJsWhitespace(s[|s| - 1]) then
      var r := TrimEnd(s[..|s| - 1]);
      assert forall i :: |r| <= i < |s| - 1 ==> s[i] == s[..|s| - 1][|r|..][i - |r|];
      r
    else s
  }

  /** `s.trim()`. */
  function Trim(s: string): string
  {
    TrimStart(TrimEnd(s))
  }

  lemma {:induction false} TrimStartEmptyIffBlank(s: string)
    ensures TrimStart(s) == [] <==> IsBlank(s)
  {
    if |s| > 0 && IsJsWhitespace(s[0]) {
      TrimStartEmptyIffBlank(s[1..]);
      assert IsBlank(s) <==> IsBlank(s[1..]) by {
        if IsBlank(s[1..]) {
          forall i | 0 <= i < |s| ensures IsJsWhitespace(s[i]) {
            if i > 0 { assert s[i] == s[1..][i - 1]; }
          }
        }
      }
    }
  }

  lemma {:induction false} TrimEndEmptyIffBlank(s: string)
    ensures TrimEnd(s) == [] <==> IsBlank(s)
  {
    if |s| > 0 && IsJsWhitespace(s[|s| - 1]) {
      var p := s[..|s| - 1];
      TrimEndEmptyIffBlank(p);
      assert IsBlank(s) <==> IsBlank(p) by {
        if IsBlank(p) {
          forall i | 0 <= i < |s| ensures IsJsWhitespace(s[i]) {
            if i < |s| - 1 { assert s[i] == p[i]; }
          }
        }
      }
    }
  }

  /** The test `text.trim() === ''` is exactly "every character is white space". */
  lemma TrimEmptyIffBlank(s: string)
    ensures Trim(s) == [] <==> IsBlank(s)
  {
    var e := TrimEnd(s);
    TrimEndEmptyIffBlank(s);
    TrimStartEmptyIffBlank(e);
    if e != [] {
      assert !IsJsWhitespace(e[|e| - 1]);
    }
  }

  /** `s.slice(i)` for a non-negative start. */
  function SliceFrom(s: string, i: nat): (r: string)
    ensures i <= |s| ==> s[..i] + r == s
    ensures |r| == if i <= |s| then |s| - i else 0
  {
    if i <= |s| then s[i..] else []
  }

  /** `c.toLowerCase()` on the ASCII letters; every other character is kept. */
  function LowerChar(c: char): char
  {
    if 'A' <= c <= 'Z' then (c as int + 32) as char else c
  }

  /** `s.toLowerCase()`, restricted to ASCII case mapping. */
  function ToLower(s: string): (r: string)
    ensures |r| == |s|
    ensures forall i :: 0 <= i < |s| ==> r[i] == LowerChar(s[i])
    ensures forall i :: 0 <= i < |r| ==> !('A' <= r[i] <= 'Z')
  {
    if s == [] then [] else [LowerChar(s[0])] + ToLower(s[1..])
  }

  /** Lower-casing neither creates nor removes white space. */
  lemma ToLowerKeepsWhitespace(s: string)
    ensures IsBlank(s) ==> IsBlank(ToLower(s))
    ensures (forall i :: 0 <= i < |s| ==> !IsJsWhitespace(s[i])) ==>
      forall i :: 0 <= i < |ToLower(s)| ==> !IsJsWhitespace(ToLower(s)[i])
  {
  }

  /** Lower-casing works character by character, so it distributes over concatenation. */
  lemma ToLowerAppend(x: string, y: string)
    ensures ToLower(x + y) == ToLower(x) + ToLower(y)
  {
    var l := ToLower(x + y);
    assert forall i :: 0 <= i < |x| ==> l[i] == LowerChar(x[i]);
    assert forall i :: |x| <= i < |l| ==> l[i] == LowerChar(y[i - |x|]);
  }

  /** `s.replace(/\s+/g, '-')`: every maximal run of white space becomes one dash. */
  function DashWhitespaceRuns(s: string): (r: string)
    ensures forall i :: 0 <= i < |r| ==> !IsJsWhitespace(r[i])
    ensures |r| <= |s|
    decreases |s|
  {
    if s == [] then []
    else
      var head := if IsJsWhitespace(s[0]) then '-' else s[0];
      var rest := if IsJsWhitespace(s[0]) then TrimStart(s) else s[1..];
      var tail := DashWhitespaceRuns(rest);
      assert forall i :: 0 < i <= |tail| ==> ([head] + tail)[i] == tail[i - 1];
      [head] + tail
  }

  /** Dropping leading white space from a string that is not all white
    * space commutes with appending anything after it. */
  lemma {:induction false} TrimStartAppend(p: string, x: string)
    requires !IsBlank(p)
    ensures TrimStart(p + x) == TrimStart(p) + x
  {
    assert (p + x)[0] == p[0];
    if IsJsWhitespace(p[0]) {
      assert !IsBlank(p[1..]) by {
        var i :| 0 <= i < |p| && !IsJsWhitespace(p[i]);
        assert p[1..][i - 1] == p[i];
      }
      assert (p + x)[1..] == p[1..] + x;
      TrimStartAppend(p[1..], x);
    }
  }

  /** A prefix of white space disappears under `trimStart`. */
  lemma {:induction false} TrimStartBlankPrefix(w: string, q: string)
    requires IsBlank(w)
    ensures TrimStart(w + q) == TrimStart(q)
  {
    if w != [] {
      assert (w + q)[0] == w[0];
      assert (w + q)[1..] == w[1..] + q;
      assert IsBlank(w[1..]) by {
        forall i | 0 <= i < |w| - 1 ensures IsJsWhitespace(w[1..][i]) {
          assert w[1..][i] == w[i + 1];
        }
      }
      TrimStartBlankPrefix(w[1..], q);
    } else {
      assert w + q == q;
    }
  }

  /** One step of the conversion: a leading white-space run becomes a dash,
    * any other leading character is kept. */
  lemma DashWhitespaceRunsStep(s: string)
    requires s != []
    ensures IsJsWhitespace(s[0]) ==> DashWhitespaceRuns(s) == "-" + DashWhitespaceRuns(TrimStart(s))
    ensures !IsJsWhitespace(s[0]) ==> DashWhitespaceRuns(s) == [s[0]] + DashWhitespaceRuns(s[1..])
  {
  }

  /** A run made only of white space becomes a single dash. */
  lemma DashWhitespaceRunsOfBlank(w: string)
    requires |w| > 0 && IsBlank(w)
    ensures DashWhitespaceRuns(w) == "-"
  {
    TrimStartEmptyIffBlank(w);
  }

  /** A white-space run between two stretches that do not touch it with
    * white space of their own becomes exactly one dash, and both sides are
    * converted on their own. With DashWhitespaceRunsOfBlank and
    * DashWhitespaceRunsKeepsPlainText this pins the conversion down on
    * every string. */
  lemma {:induction false} DashWhitespaceRunsSplit(p: string, w: string, q: string)
    requires |w| > 0 && IsBlank(w)
    requires p == [] || !IsJsWhitespace(p[|p| - 1])
    requires q == [] || !IsJsWhitespace(q[0])
    ensures DashWhitespaceRuns(p + (w + q)) == DashWhitespaceRuns(p) + ("-" + DashWhitespaceRuns(q))
    decreases |p|, 1
  {
    if p == [] {
      SplitEmptyPrefix(w, q);
      assert p + (w + q) == w + q;
      assert DashWhitespaceRuns(p) + ("-" + DashWhitespaceRuns(q)) == "-" + DashWhitespaceRuns(q);
    } else if IsJsWhitespace(p[0]) {
      SplitLeadingRun(p, w, q);
    } else {
      SplitPlainChar(p, w, q);
    }
  }

  /** DashWhitespaceRunsSplit when `p` is empty. */
  lemma SplitEmptyPrefix(w: string, q: string)
    requires |w| > 0 && IsBlank(w)
    requires q == [] || !IsJsWhitespace(q[0])
    ensures DashWhitespaceRuns(w + q) == "-" + DashWhitespaceRuns(q)
  {
    assert (w + q)[0] == w[0];
    TrimStartBlankPrefix(w, q);
    DashWhitespaceRunsStep(w + q);
  }

  /** DashWhitespaceRunsSplit when `p` starts with white space. */
  lemma {:induction false} SplitLeadingRun(p: string, w: string, q: string)
    requires |w| > 0 && IsBlank(w)
    requires p != [] && IsJsWhitespace(p[0]) && !IsJsWhitespace(p[|p| - 1])
    requires q == [] || !IsJsWhitespace(q[0])
    ensures DashWhitespaceRuns(p + (w + q)) == DashWhitespaceRuns(p) + ("-" + DashWhitespaceRuns(q))
    decreases |p|, 0
  {
    var t := TrimStart(p);
    SplitAfterLeadingRun(p, w + q);
    DashWhitespaceRunsSplit(t, w, q);
    DashWhitespaceRunsStep(p);
    Host.AppendAssoc("-", DashWhitespaceRuns(t), "-" + DashWhitespaceRuns(q));
  }

  /** DashWhitespaceRunsSplit when `p` starts with another character. */
  lemma {:induction false} SplitPlainChar(p: string, w: string, q: string)
    requires |w| > 0 && IsBlank(w)
    requires p != [] && !IsJsWhitespace(p[0]) && !IsJsWhitespace(p[|p| - 1])
    requires q == [] || !IsJsWhitespace(q[0])
    ensures DashWhitespaceRuns(p + (w + q)) == DashWhitespaceRuns(p) + ("-" + DashWhitespaceRuns(q))
    decreases |p|, 0
  {
    SplitAfterPlainChar(p, w + q);
    DashWhitespaceRunsSplit(p[1..], w, q);
    DashWhitespaceRunsStep(p);
    Host.AppendAssoc([p[0]], DashWhitespaceRuns(p[1..]), "-" + DashWhitespaceRuns(q));
  }

  /** One conversion step past a leading white-space run of `p`. */
  lemma SplitAfterLeadingRun(p: string, x: string)
    requires p != [] && IsJsWhitespace(p[0]) && !IsJsWhitespace(p[|p| - 1])
    ensures TrimStart(p) != [] && !IsJsWhitespace(TrimStart(p)[|TrimStart(p)| - 1])
    ensures |TrimStart(p)| < |p|
    ensures DashWhitespaceRuns(p + x) == "-" + DashWhitespaceRuns(TrimStart(p) + x)
  {
    var t := TrimStart(p);
    assert !IsBlank(p);
    TrimStartEmptyIffBlank(p);
    assert t[|t| - 1] == p[|p| - 1];
    TrimStartAppend(p, x);
    assert (p + x)[0] == p[0];
    DashWhitespaceRunsStep(p + x);
  }

  /** One conversion step past a leading non-white-space character of `p`. */
  lemma SplitAfterPlainChar(p: string, x: string)
    requires p != [] && !IsJsWhitespace(p[0])
    ensures p[1..] == [] || p[1..][|p[1..]| - 1] == p[|p| - 1]
    ensures DashWhitespaceRuns(p + x) == [p[0]] + DashWhitespaceRuns(p[1..] + x)
  {
    assert (p + x)[0] == p[0] && (p + x)[1..] == p[1..] + x;
    DashWhitespaceRunsStep(p + x);
  }

  /** A string without white space is left as it is. */
  lemma {:induction false} DashWhitespaceRunsKeepsPlainText(s: string)
    requires forall i :: 0 <= i < |s| ==> !IsJsWhitespace(s[i])
    ensures DashWhitespaceRuns(s) == s
  {
    if s != [] {
      DashWhitespaceRunsKeepsPlainText(s[1..]);
    }
  }
}
