/**
 * The name handling of main.js: the non-empty check of `ensurePlayerName`
 * and the sanitiser `getPlayerName` (trim, collapse whitespace runs into one
 * space, drop everything but word characters, whitespace, '-' and Hangul
 * syllables, keep at most 12 characters, fall back to "Player").
 */
module PlayerName {
  /** Longest name kept (main.js:588). */
  const MaxNameLength: nat := 12
  /** Name used when nothing survives sanitising (main.js:588). */
  const Fallback: string := "Player"

  /** JavaScript's `\s`, which is also what `String.prototype.trim` removes. */
  predicate IsSpace(ch: char)
  {
    || ch == ' ' || ch == '\t' || ch == '\n' || ch == '\r'
    || ch == '\U{B}' || ch == '\U{C}' || ch == '\U{A0}' || ch == '\U{1680}'
    || ('\U{2000}' <= ch <= '\U{200A}')
    || ch == '\U{2028}' || ch == '\U{2029}' || ch == '\U{202F}' || ch == '\U{205F}'
    || ch == '\U{3000}' || ch == '\U{FEFF}'
  }

  /** JavaScript's `\w`. */
  predicate IsWord(ch: char)
  {
    ('a' <= ch <= 'z') || ('A' <= ch <= 'Z') || ('0' <= ch <= '9') || ch == '_'
  }

  /** A Hangul syllable, the range `가-힣`. */
  predicate IsHangul(ch: char)
  {
    '\U{AC00}' <= ch <= '\U{D7A3}'
  }

  /** Characters the filter `/[^\w\s\-가-힣]/g` keeps. */
  predicate Kept(ch: char)
  {
    IsWord(ch) || IsSpace(ch) || ch == '-' || IsHangul(ch)
  }

  function TrimStart(s: string): (r: string)
    ensures |r| <= |s| && r == s[|s| - |r|..]
    ensures r == [] || !IsSpace(r[0])
    ensures forall i :: 0 <= i < |s| - |r| ==> IsSpace(s[i])
    ensures s != [] && IsSpace(s[0]) ==> |r| < |s|
  {
    if s != [] && IsSpace(s[0]) then TrimStart(s[1..]) else s
  }

  function TrimEnd(s: string): (r: string)
    ensures |r| <= |s| && r == s[..|r|]
    ensures r == [] || !IsSpace(r[|r| - 1])
    ensures forall i :: |r| <= i < |s| ==> IsSpace(s[i])
  {
    if s != [] && IsSpace(s[|s| - 1]) then TrimEnd(s[..|s| - 1]) else s
  }

  /**
   * `String.prototype.trim`: the stretch of `s` left between its leading and
   * its trailing whitespace.
   */
  function Trim(s: string): (r: string)
    ensures |r| <= |s|
    ensures r == [] || (!IsSpace(r[0]) && !IsSpace(r[|r| - 1]))
    ensures exists a :: Between(s, a, r)
  {
    var t := TrimStart(s);
    var r := TrimEnd(t);
    assert r != [] ==> r[0] == t[0];
    var a := |s| - |t|;
    assert r == s[a..a + |r|];
    assert Between(s, a, r);
    r
  }

  /** `r` is the stretch of `s` at offset `a`, with only whitespace before and after it. */
  predicate Between(s: string, a: int, r: string)
  {
    && 0 <= a <= |s| - |r| && r == s[a..a + |r|]
    && (forall i :: 0 <= i < a ==> IsSpace(s[i]))
    && (forall i :: a + |r| <= i < |s| ==> IsSpace(s[i]))
  }

  /** `replace(/\s+/g, " ")`: every maximal whitespace run becomes one space. */
  function Collapse(s: string): (r: string)
    ensures |r| <= |s|
    ensures forall i :: 0 <= i < |r| && IsSpace(r[i]) ==> r[i] == ' '
    ensures forall i, j :: 0 <= i < j < |r| && j == i + 1 ==> !(IsSpace(r[i]) && IsSpace(r[j]))
    ensures s != [] && !IsSpace(s[0]) ==> r != [] && r[0] == s[0]
    decreases |s|
  {
    if s == [] then []
    else if IsSpace(s[0]) then
      var rest := TrimStart(s);
      var tail := Collapse(rest);
      assert tail == [] || !IsSpace(tail[0]);
      [' '] + tail
    else
      [s[0]] + Collapse(s[1..])
  }

  /** `replace(/[^\w\s\-가-힣]/g, "")`. */
  function Filter(s: string): (r: string)
    ensures |r| <= |s|
    ensures forall i :: 0 <= i < |r| ==> Kept(r[i]) && r[i] in s
    ensures (forall i :: 0 <= i < |s| ==> Kept(s[i])) ==> r == s
    ensures |s| == 1 ==> r == (if Kept(s[0]) then s else [])
  {
    if s == [] then []
    else if Kept(s[0]) then [s[0]] + Filter(s[1..])
    else Filter(s[1..])
  }

  /**
   * The filter works character by character: filtering a concatenation
   * filters each part, so every kept character survives, in order.
   */
  lemma {:induction false} FilterAppend(a: string, b: string)
    ensures Filter(a + b) == Filter(a) + Filter(b)
  {
    if a != [] {
      assert (a + b)[0] == a[0] && (a + b)[1..] == a[1..] + b;
      FilterAppend(a[1..], b);
      if Kept(a[0]) {
        assert Filter(a + b) == [a[0]] + (Filter(a[1..]) + Filter(b));
      } else {
        assert Filter(a + b) == Filter(a[1..]) + Filter(b);
      }
    } else {
      assert a + b == b;
    }
  }

  /** The characters of `s` that are not whitespace, in order. */
  function Visible(s: string): (r: string)
    ensures |r| <= |s|
    ensures forall i :: 0 <= i < |r| ==> !IsSpace(r[i])
  {
    if s == [] then []
    else if IsSpace(s[0]) then Visible(s[1..])
    else [s[0]] + Visible(s[1..])
  }

  lemma {:induction false} TrimStartVisible(s: string)
    ensures Visible(TrimStart(s)) == Visible(s)
  {
    if s != [] && IsSpace(s[0]) {
      TrimStartVisible(s[1..]);
    }
  }

  /**
   * Collapsing only rewrites whitespace: every other character of the text
   * survives, in order, and nothing else is added.
   */
  lemma {:induction false} CollapseKeepsVisible(s: string)
    ensures Visible(Collapse(s)) == Visible(s)
    decreases |s|
  {
    if s != [] {
      if IsSpace(s[0]) {
        var rest := TrimStart(s);
        TrimStartVisible(s);
        CollapseKeepsVisible(rest);
        assert ([' '] + Collapse(rest))[1..] == Collapse(rest);
      } else {
        CollapseKeepsVisible(s[1..]);
        assert ([s[0]] + Collapse(s[1..]))[1..] == Collapse(s[1..]);
      }
    }
  }

  /**
   * Each maximal whitespace run becomes exactly one plain space: a run `w`
   * between a text ending in a non-space and a text starting with one is
   * replaced by `' '`, and the texts on either side are collapsed on their own.
   */
  lemma {:induction false} CollapseRun(a: string, w: string, b: string)
    requires a == [] || !IsSpace(a[|a| - 1])
    requires w != [] && forall i :: 0 <= i < |w| ==> IsSpace(w[i])
    requires b == [] || !IsSpace(b[0])
    ensures Collapse(a + w + b) == Collapse(a) + [' '] + Collapse(b)
    decreases |a|
  {
    if a == [] {
      assert a + w + b == w + b && Collapse(a) == [];
      RunAtFront(w, b);
      assert [' '] + Collapse(b) == Collapse(a) + [' '] + Collapse(b);
    } else if IsSpace(a[0]) {
      var t := TrimStart(a);
      assert t != [] && t[|t| - 1] == a[|a| - 1];
      CollapseRun(t, w, b);
      RunAfterSpaces(a, w, b);
    } else {
      CollapseRun(a[1..], w, b);
      RunAfterChar(a, w, b);
    }
  }

  lemma RunAtFront(w: string, b: string)
    requires w != [] && forall i :: 0 <= i < |w| ==> IsSpace(w[i])
    requires b == [] || !IsSpace(b[0])
    ensures Collapse(w + b) == [' '] + Collapse(b)
  {
    assert IsSpace(w[0]);
    assert (w + b)[0] == w[0];
    TrimStartRun(w, b);
    CollapseSpaceHead(w + b);
  }

  lemma RunAfterSpaces(a: string, w: string, b: string)
    requires a != [] && IsSpace(a[0]) && !IsSpace(a[|a| - 1])
    requires Collapse(TrimStart(a) + w + b) == Collapse(TrimStart(a)) + [' '] + Collapse(b)
    ensures Collapse(a + w + b) == Collapse(a) + [' '] + Collapse(b)
  {
    var t := TrimStart(a);
    calc {
      Collapse(a + w + b);
      { CollapseSpaceHead(a + w + b); }
      [' '] + Collapse(TrimStart(a + w + b));
      { Assoc(a, w, b); TrimStartAppend(a, w + b); Assoc(t, w, b); }
      [' '] + Collapse(t + w + b);
      [' '] + (Collapse(t) + [' '] + Collapse(b));
      { Assoc4([' '], Collapse(t), [' '], Collapse(b)); }
      [' '] + Collapse(t) + [' '] + Collapse(b);
      { CollapseSpaceHead(a); }
      Collapse(a) + [' '] + Collapse(b);
    }
  }

  lemma RunAfterChar(a: string, w: string, b: string)
    requires a != [] && !IsSpace(a[0])
    requires Collapse(a[1..] + w + b) == Collapse(a[1..]) + [' '] + Collapse(b)
    ensures Collapse(a + w + b) == Collapse(a) + [' '] + Collapse(b)
  {
    calc {
      Collapse(a + w + b);
      { CollapseCharHead(a + w + b); }
      [a[0]] + Collapse((a + w + b)[1..]);
      { Assoc(a, w, b); TailConcat(a, w + b); Assoc(a[1..], w, b); }
      [a[0]] + Collapse(a[1..] + w + b);
      [a[0]] + (Collapse(a[1..]) + [' '] + Collapse(b));
      { Assoc4([a[0]], Collapse(a[1..]), [' '], Collapse(b)); }
      [a[0]] + Collapse(a[1..]) + [' '] + Collapse(b);
      { CollapseCharHead(a); }
      Collapse(a) + [' '] + Collapse(b);
    }
  }

  lemma Assoc(x: string, y: string, z: string)
    ensures x + (y + z) == x + y + z
  {
  }

  lemma Assoc4(x: string, y: string, z: string, u: string)
    ensures x + (y + z + u) == x + y + z + u
  {
  }

  lemma TailConcat(x: string, y: string)
    requires x != []
    ensures (x + y)[1..] == x[1..] + y
  {
  }

  lemma CollapseSpaceHead(s: string)
    requires s != [] && IsSpace(s[0])
    ensures Collapse(s) == [' '] + Collapse(TrimStart(s))
  {
  }

  lemma CollapseCharHead(s: string)
    requires s != [] && !IsSpace(s[0])
    ensures Collapse(s) == [s[0]] + Collapse(s[1..])
  {
  }

  /** A whitespace run in front of a text that starts with a non-space is trimmed away exactly. */
  lemma {:induction false} TrimStartRun(w: string, b: string)
    requires forall i :: 0 <= i < |w| ==> IsSpace(w[i])
    requires b == [] || !IsSpace(b[0])
    ensures TrimStart(w + b) == b
  {
    if w == [] {
      assert w + b == b;
    } else {
      assert (w + b)[1..] == w[1..] + b;
      TrimStartRun(w[1..], b);
    }
  }

  /** Trimming the front of a text that ends in a non-space never reaches past it. */
  lemma {:induction false} TrimStartAppend(a: string, t: string)
    requires a != [] && !IsSpace(a[|a| - 1])
    ensures TrimStart(a + t) == TrimStart(a) + t
  {
    if IsSpace(a[0]) {
      assert |a| > 1;
      assert (a + t)[1..] == a[1..] + t;
      TrimStartAppend(a[1..], t);
    }
  }

  /** The check of `ensurePlayerName`: some character of the input is not whitespace. */
  predicate NameGiven(raw: string)
  {
    exists i :: 0 <= i < |raw| && !IsSpace(raw[i])
  }

  /** `raw.trim()` is non-empty (main.js:592-593) exactly when the input is not all whitespace. */
  lemma {:induction false} NameGivenIffTrimmed(raw: string)
    ensures NameGiven(raw) <==> Trim(raw) != []
  {
    var t := TrimStart(raw);
    if t != [] {
      assert !IsSpace(raw[|raw| - |t|]);
      assert TrimEnd(t) != [] by {
        assert !IsSpace(t[0]);
        TrimEndKeepsFirst(t);
      }
    }
    if NameGiven(raw) {
      var i :| 0 <= i < |raw| && !IsSpace(raw[i]);
      assert i >= |raw| - |t|;
    }
  }

  lemma {:induction false} TrimEndKeepsFirst(t: string)
    requires t != [] && !IsSpace(t[0])
    ensures TrimEnd(t) != []
  {
    if |t| > 1 && IsSpace(t[|t| - 1]) {
      TrimEndKeepsFirst(t[..|t| - 1]);
    }
  }

  /** Characters that can appear in a sanitised name: only plain spaces as whitespace. */
  predicate NameChar(ch: char)
  {
    IsWord(ch) || ch == ' ' || ch == '-' || IsHangul(ch)
  }

  /** The text `getPlayerName` sanitises to: trimmed, whitespace runs collapsed, filtered. */
  function Sanitised(raw: string): string
  {
    Filter(Collapse(Trim(raw)))
  }

  /** After sanitising, the only whitespace left is the plain space. */
  lemma SanitisedChars(raw: string)
    ensures forall i :: 0 <= i < |Sanitised(raw)| ==> NameChar(Sanitised(raw)[i])
  {
    forall i | 0 <= i < |Sanitised(raw)| ensures NameChar(Sanitised(raw)[i]) {
      ThroughCollapseOnlySpaces(Trim(raw), Sanitised(raw)[i]);
    }
  }

  /** `getPlayerName` (main.js:584-589). */
  function GetPlayerName(raw: string): (r: string)
    ensures 1 <= |r| <= MaxNameLength
    ensures forall i :: 0 <= i < |r| ==> NameChar(r[i])
    ensures var safe := Sanitised(raw);
            && (safe == [] ==> r == Fallback)
            && (safe != [] ==> |r| <= |safe| && r == safe[..|r|]
                               && (|safe| <= MaxNameLength ==> r == safe)
                               && (|safe| > MaxNameLength ==> r == safe[..MaxNameLength]))
  {
    var safe := Sanitised(raw);
    if safe != [] then
      SanitisedChars(raw);
      if |safe| < MaxNameLength then safe else safe[..MaxNameLength]
    else Fallback
  }

  lemma ThroughCollapseOnlySpaces(s: string, ch: char)
    requires ch in Filter(Collapse(s))
    ensures NameChar(ch)
  {
    var i :| 0 <= i < |Filter(Collapse(s))| && Filter(Collapse(s))[i] == ch;
    assert ch in Collapse(s);
  }

  /** A string with no whitespace is left alone by trimming and collapsing. */
  lemma NoSpaceUntouched(s: string)
    requires forall i :: 0 <= i < |s| ==> !IsSpace(s[i])
    ensures Trim(s) == s && Collapse(s) == s
  {
    NoSpaceTrim(s);
    NoSpaceCollapse(s);
  }

  lemma NoSpaceTrim(s: string)
    requires forall i :: 0 <= i < |s| ==> !IsSpace(s[i])
    ensures Trim(s) == s
  {
    if s != [] {
      assert !IsSpace(s[0]) && !IsSpace(s[|s| - 1]);
      assert TrimStart(s) == s;
      assert TrimEnd(s) == s;
    }
  }

  lemma {:induction false} NoSpaceCollapse(s: string)
    requires forall i :: 0 <= i < |s| ==> !IsSpace(s[i])
    ensures Collapse(s) == s
  {
    if s != [] {
      assert forall i :: 0 <= i < |s[1..]| ==> s[1..][i] == s[i + 1];
      NoSpaceCollapse(s[1..]);
      assert Collapse(s) == [s[0]] + Collapse(s[1..]);
    }
  }

  /**
   * A name of at most 12 word characters, dashes and Hangul syllables comes
   * back unchanged.
   */
  lemma CleanChar(ch: char)
    requires IsWord(ch) || ch == '-' || IsHangul(ch)
    ensures !IsSpace(ch) && Kept(ch)
  {
  }

  lemma CleanNameKept(raw: string)
    requires 1 <= |raw| <= MaxNameLength
    requires forall i :: 0 <= i < |raw| ==> IsWord(raw[i]) || raw[i] == '-' || IsHangul(raw[i])
    ensures GetPlayerName(raw) == raw
  {
    forall i | 0 <= i < |raw| ensures !IsSpace(raw[i]) && Kept(raw[i]) {
      CleanChar(raw[i]);
    }
    NoSpaceUntouched(raw);
    assert Sanitised(raw) == raw;
  }
}
