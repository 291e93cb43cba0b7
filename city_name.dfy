/** City normalisation of the weather handler (`controllers/weather.controller.js`,
    line 18): lower-case, trim, replace every run of whitespace by one space,
    lower-case again. Characters are restricted to ASCII case folding and the
    six ASCII whitespace characters (tab, line feed, vertical tab, form feed,
    carriage return, space). */
module CityName {

  predicate IsSpace(c: char) {
    c == ' ' || '\t' <= c <= '\r'
  }

  /** All characters of `sp` are whitespace. */
  predicate AllSpace(sp: string) {
    forall i :: 0 <= i < |sp| ==> IsSpace(sp[i])
  }

  predicate IsUpper(c: char) {
    'A' <= c <= 'Z'
  }

  predicate NoUpper(s: string) {
    forall i :: 0 <= i < |s| ==> !IsUpper(s[i])
  }

  /** No whitespace at either end. */
  predicate Trimmed(s: string) {
    s == [] || (!IsSpace(s[0]) && !IsSpace(s[|s| - 1]))
  }

  /** Every whitespace character is a plain space, and no two are adjacent. */
  predicate SingleSpaced(s: string) {
    && (forall i :: 0 <= i < |s| && IsSpace(s[i]) ==> s[i] == ' ')
    && (forall i, j :: 0 <= i < |s| && j == i + 1 && j < |s| ==> !(IsSpace(s[i]) && IsSpace(s[j])))
  }

  /** The form every normalised city has. */
  predicate Canonical(s: string) {
    NoUpper(s) && Trimmed(s) && SingleSpaced(s)
  }

  /** A non-empty run of characters none of which is whitespace. */
  predicate IsWord(w: string) {
    w != [] && forall i :: 0 <= i < |w| ==> !IsSpace(w[i])
  }

  function Last(s: string): char
    requires s != []
  {
    s[|s| - 1]
  }

  // ---------------------------------------------------------------------------
  // The string operations the handler chains together.

  function LowerChar(c: char): (d: char)
    ensures !IsUpper(d)
    ensures IsSpace(d) <==> IsSpace(c)
    ensures !IsUpper(c) ==> d == c
  {
    if IsUpper(c) then (c as int - 'A' as int + 'a' as int) as char else c
  }

  /** `String.prototype.toLowerCase`. */
  function Lower(s: string): (r: string)
    ensures |r| == |s| && NoUpper(r)
    ensures NoUpper(s) ==> r == s
  {
    if s == [] then [] else [LowerChar(s[0])] + Lower(s[1..])
  }

  /** `Lower` folds each character on its own, in place. */
  lemma {:induction false} LowerMapsEachChar(s: string)
    ensures forall i :: 0 <= i < |s| ==> Lower(s)[i] == LowerChar(s[i])
    decreases |s|
  {
    if s != [] {
      LowerMapsEachChar(s[1..]);
      var r := Lower(s);
      assert r == [LowerChar(s[0])] + Lower(s[1..]);
      forall i | 0 <= i < |s| ensures r[i] == LowerChar(s[i]) {
        if i > 0 {
          assert r[i] == Lower(s[1..])[i - 1] && s[i] == s[1..][i - 1];
        }
      }
    }
  }

  /** Drops the leading whitespace (see `TrimStartShape`). */
  function TrimStart(s: string): (r: string)
    ensures |r| <= |s|
  {
    if s != [] && IsSpace(s[0]) then TrimStart(s[1..]) else s
  }

  /** Drops the trailing whitespace (see `TrimEndShape`). */
  function TrimEnd(s: string): (r: string)
    ensures |r| <= |s|
  {
    if s != [] && IsSpace(s[|s| - 1]) then TrimEnd(s[..|s| - 1]) else s
  }

  /** `String.prototype.trim`. */
  function Trim(s: string): (r: string)
    ensures Trimmed(r)
  {
    var u := TrimStart(s);
    TrimStartShape(s);
    TrimEndShape(u);
    TrimEnd(u)
  }

  /** `s.replace(/\s+/g, " ")`: every maximal run of whitespace becomes one
      space; every other character is kept in place. */
  function Collapse(s: string): (r: string)
    ensures s == [] <==> r == []
    ensures s != [] ==> r[0] == (if IsSpace(s[0]) then ' ' else s[0])
    decreases |s|
  {
    if s == [] then []
    else if IsSpace(s[0]) then
      var rest := TrimStart(s[1..]);
      [' '] + Collapse(rest)
    else
      [s[0]] + Collapse(s[1..])
  }

  /** The normalised city of line 18. The result is lower-case, trimmed and
      single-spaced whatever the input. */
  function Normalize(city: string): (r: string)
    ensures Canonical(r)
  {
    var t := Trim(Lower(city));
    var c := Collapse(t);
    TrimKeepsNoUpper(Lower(city));
    CollapseKeepsNoUpper(t);
    CollapseIsSingleSpaced(t);
    if t == [] then Lower(c)
    else
      CollapseKeepsLastSpace(t);
      assert Last(c) == c[|c| - 1];
      Lower(c)
  }

  // ---------------------------------------------------------------------------
  // What trimming keeps and drops.

  /** `TrimStart` keeps the suffix of `s` that starts at its first
      non-whitespace character, and drops only whitespace. */
  lemma {:induction false} TrimStartShape(s: string)
    ensures var r := TrimStart(s);
      && r == s[|s| - |r|..]
      && (forall i :: 0 <= i < |s| - |r| ==> IsSpace(s[i]))
      && (r == [] || !IsSpace(r[0]))
    decreases |s|
  {
    if s != [] && IsSpace(s[0]) {
      TrimStartShape(s[1..]);
      var r := TrimStart(s);
      assert r == TrimStart(s[1..]);
      assert s[1..][|s| - 1 - |r|..] == s[|s| - |r|..];
      forall i | 0 <= i < |s| - |r| ensures IsSpace(s[i]) {
        if i > 0 {
          assert s[i] == s[1..][i - 1];
        }
      }
    }
  }

  /** `TrimEnd` keeps the prefix of `s` that ends at its last non-whitespace
      character, and drops only whitespace. */
  lemma {:induction false} TrimEndShape(s: string)
    ensures var r := TrimEnd(s);
      && r == s[..|r|]
      && (forall i :: |r| <= i < |s| ==> IsSpace(s[i]))
      && (r == [] || !IsSpace(r[|r| - 1]))
    decreases |s|
  {
    if s != [] && IsSpace(s[|s| - 1]) {
      var s' := s[..|s| - 1];
      TrimEndShape(s');
      var r := TrimEnd(s);
      assert r == TrimEnd(s');
      assert s'[..|r|] == s[..|r|];
      forall i | |r| <= i < |s| ensures IsSpace(s[i]) {
        if i < |s| - 1 {
          assert s[i] == s'[i];
        }
      }
    } else {
      assert s[..|s|] == s;
    }
  }

  /** Leading whitespace of length `k` is exactly what `TrimStart` drops. */
  lemma {:induction false} TrimStartAt(s: string, k: nat)
    requires k <= |s| && AllSpace(s[..k])
    requires k == |s| || !IsSpace(s[k])
    ensures TrimStart(s) == s[k..]
    decreases k
  {
    if k > 0 {
      assert IsSpace(s[0]);
      TrimStartAt(s[1..], k - 1);
      assert s[1..][k - 1..] == s[k..];
    }
  }

  /** Trailing whitespace after position `k` is exactly what `TrimEnd` drops. */
  lemma {:induction false} TrimEndAt(s: string, k: nat)
    requires k <= |s|
    requires forall i :: k <= i < |s| ==> IsSpace(s[i])
    requires k == 0 || !IsSpace(s[k - 1])
    ensures TrimEnd(s) == s[..k]
    decreases |s| - k
  {
    if k < |s| {
      assert IsSpace(s[|s| - 1]);
      var s' := s[..|s| - 1];
      TrimEndAt(s', k);
      assert s'[..k] == s[..k];
    } else {
      assert s[..k] == s;
    }
  }

  // ---------------------------------------------------------------------------
  // What collapsing produces.

  /** Whatever its input, `Collapse` produces a single-spaced string. */
  lemma {:induction false} CollapseIsSingleSpaced(s: string)
    ensures SingleSpaced(Collapse(s))
    decreases |s|
  {
    if s != [] {
      var r := Collapse(s);
      var rest := if IsSpace(s[0]) then TrimStart(s[1..]) else s[1..];
      TrimStartShape(s[1..]);
      var c := Collapse(rest);
      CollapseIsSingleSpaced(rest);
      assert r == [r[0]] + c;
      assert c != [] && IsSpace(r[0]) ==> !IsSpace(c[0]);
      forall i | 0 <= i < |r| && IsSpace(r[i]) ensures r[i] == ' ' {
        if i > 0 {
          assert r[i] == c[i - 1];
        }
      }
      forall i, j | 0 <= i < |r| && j == i + 1 && j < |r| ensures !(IsSpace(r[i]) && IsSpace(r[j])) {
        if i > 0 {
          assert r[i] == c[i - 1] && r[j] == c[j - 1];
        }
      }
    }
  }

  /** `Collapse` ends in whitespace exactly when its input does. */
  lemma {:induction false} CollapseKeepsLastSpace(s: string)
    requires s != []
    ensures IsSpace(Last(Collapse(s))) <==> IsSpace(Last(s))
    decreases |s|
  {
    var tail := s[1..];
    if !IsSpace(s[0]) {
      assert Collapse(s) == [s[0]] + Collapse(tail);
      if tail != [] {
        CollapseKeepsLastSpace(tail);
        LastOfCons(s[0], Collapse(tail));
        assert Last(tail) == Last(s);
      }
    } else {
      var rest := TrimStart(tail);
      TrimStartShape(tail);
      assert Collapse(s) == [' '] + Collapse(rest);
      if rest == [] {
        assert Collapse(s) == [' '];
        if tail != [] {
          assert IsSpace(tail[|tail| - 1]);
          assert tail[|tail| - 1] == s[|s| - 1];
        }
      } else {
        CollapseKeepsLastSpace(rest);
        LastOfCons(' ', Collapse(rest));
        assert Last(rest) == Last(tail) == Last(s);
      }
    }
  }

  lemma LastOfCons(c: char, s: string)
    requires s != []
    ensures Last([c] + s) == Last(s)
  {
  }

  /** `Collapse` brings in no character other than a space. */
  lemma {:induction false} CollapseKeepsNoUpper(s: string)
    requires NoUpper(s)
    ensures NoUpper(Collapse(s))
    decreases |s|
  {
    if s != [] {
      var rest := if IsSpace(s[0]) then TrimStart(s[1..]) else s[1..];
      TrimStartShape(s[1..]);
      assert NoUpper(rest) by {
        forall i | 0 <= i < |rest| ensures !IsUpper(rest[i]) {
          assert rest[i] == s[|s| - |rest| + i];
        }
      }
      CollapseKeepsNoUpper(rest);
      var c := Collapse(rest);
      assert Collapse(s) == [Collapse(s)[0]] + c;
    }
  }

  /** A word in front of the rest is copied unchanged by `Collapse`. */
  lemma {:induction false} CollapseAfterWord(w: string, x: string)
    requires forall i :: 0 <= i < |w| ==> !IsSpace(w[i])
    ensures Collapse(w + x) == w + Collapse(x)
    decreases |w|
  {
    if w == [] {
      assert w + x == x;
    } else {
      var wx := w + x;
      assert wx[0] == w[0] && !IsSpace(wx[0]);
      assert wx[1..] == w[1..] + x;
      CollapseAfterWord(w[1..], x);
      calc {
        Collapse(wx);
        [w[0]] + Collapse(w[1..] + x);
        [w[0]] + (w[1..] + Collapse(x));
        ([w[0]] + w[1..]) + Collapse(x);
        { assert [w[0]] + w[1..] == w; }
        w + Collapse(x);
      }
    }
  }

  /** A run of whitespace in front of a word collapses to one space. */
  lemma CollapseSpacesBeforeWord(sp: string, y: string)
    requires sp != [] && AllSpace(sp)
    requires y != [] && !IsSpace(y[0])
    ensures Collapse(sp + y) == [' '] + Collapse(y)
  {
    var s := sp + y;
    assert s[0] == sp[0];
    var tail := s[1..];
    assert tail == sp[1..] + y;
    assert forall i :: 0 <= i < |sp| - 1 ==> tail[i] == sp[i + 1];
    assert tail[|sp| - 1] == y[0];
    TrimStartAt(tail, |sp| - 1);
    assert tail[|sp| - 1..] == y;
  }

  /** `Collapse` leaves a single-spaced string as it is. */
  lemma {:induction false} CollapseFixesSingleSpaced(s: string)
    requires SingleSpaced(s)
    ensures Collapse(s) == s
    decreases |s|
  {
    if s != [] {
      if IsSpace(s[0]) {
        TrimStartAt(s[1..], 0);
      }
      CollapseFixesSingleSpaced(s[1..]);
    }
  }

  // ---------------------------------------------------------------------------
  // A reference definition: the words of a string, joined by single spaces.

  /** Length of the word at the front of `s` (zero when `s` starts with
      whitespace or is empty). */
  function WordLen(s: string): (n: nat)
    ensures n <= |s|
    ensures s != [] && !IsSpace(s[0]) ==> n >= 1
  {
    if s == [] || IsSpace(s[0]) then 0 else 1 + WordLen(s[1..])
  }

  /** The maximal runs of non-whitespace characters of `s`, in order. */
  function Words(s: string): (ws: seq<string>)
    decreases |s|
  {
    if s == [] then []
    else if IsSpace(s[0]) then Words(s[1..])
    else
      var n := WordLen(s);
      [s[..n]] + Words(s[n..])
  }

  /** The words separated by single spaces. */
  function Join(ws: seq<string>): string {
    if ws == [] then []
    else if |ws| == 1 then ws[0]
    else ws[0] + " " + Join(ws[1..])
  }

  /** `WordLen` measures the whole run of non-whitespace at the front. */
  lemma {:induction false} WordLenShape(s: string)
    ensures var n := WordLen(s);
      && (forall i :: 0 <= i < n ==> !IsSpace(s[i]))
      && (n == |s| || IsSpace(s[n]))
    decreases |s|
  {
    if s != [] && !IsSpace(s[0]) {
      WordLenShape(s[1..]);
      var n := WordLen(s);
      forall i | 0 <= i < n ensures !IsSpace(s[i]) {
        if i > 0 {
          assert s[i] == s[1..][i - 1];
        }
      }
      if n < |s| {
        assert s[n] == s[1..][n - 1];
      }
    }
  }

  /** A word of length `k` at the front of `s` is what `WordLen` measures. */
  lemma {:induction false} WordLenAt(s: string, k: nat)
    requires k <= |s|
    requires forall i :: 0 <= i < k ==> !IsSpace(s[i])
    requires k == |s| || IsSpace(s[k])
    ensures WordLen(s) == k
    decreases k
  {
    if k > 0 {
      assert !IsSpace(s[0]);
      WordLenAt(s[1..], k - 1);
    }
  }

  /** Every element of `Words(s)` is a word. */
  lemma {:induction false} WordsAreWords(s: string)
    ensures forall k :: 0 <= k < |Words(s)| ==> IsWord(Words(s)[k])
    decreases |s|
  {
    if s != [] {
      if IsSpace(s[0]) {
        WordsAreWords(s[1..]);
      } else {
        var n := WordLen(s);
        WordLenShape(s);
        WordsAreWords(s[n..]);
        var ws := Words(s);
        assert ws == [s[..n]] + Words(s[n..]);
        forall k | 0 <= k < |ws| ensures IsWord(ws[k]) {
          if k > 0 {
            assert ws[k] == Words(s[n..])[k - 1];
          }
        }
      }
    }
  }

  /** Words skip leading whitespace. */
  lemma {:induction false} WordsAfterSpaces(s: string, k: nat)
    requires k <= |s| && AllSpace(s[..k])
    ensures Words(s) == Words(s[k..])
    decreases k
  {
    if k > 0 {
      assert IsSpace(s[0]);
      WordsAfterSpaces(s[1..], k - 1);
      assert s[1..][k - 1..] == s[k..];
    }
  }

  /** Words ignore trailing whitespace. */
  lemma {:induction false} WordsBeforeSpaces(x: string, sp: string)
    requires AllSpace(sp)
    ensures Words(x + sp) == Words(x)
    decreases |x|
  {
    var s := x + sp;
    if x == [] {
      assert s == sp;
      WordsAfterSpaces(sp, |sp|);
      assert sp[|sp|..] == [];
    } else if IsSpace(x[0]) {
      assert s[0] == x[0] && s[1..] == x[1..] + sp;
      WordsBeforeSpaces(x[1..], sp);
    } else {
      assert s[0] == x[0];
      var n := WordLen(x);
      WordLenShape(x);
      assert forall i :: 0 <= i < n ==> s[i] == x[i];
      assert n < |x| ==> s[n] == x[n];
      assert n == |x| && sp != [] ==> s[n] == sp[0];
      WordLenAt(s, n);
      assert s[..n] == x[..n];
      assert s[n..] == x[n..] + sp;
      WordsBeforeSpaces(x[n..], sp);
    }
  }

  // ---------------------------------------------------------------------------
  // Normalisation equals the joined words of the lower-cased input.

  /** A string that starts with a word splits into that word and the words
      of what follows it. */
  lemma FirstWord(u: string)
    requires u != [] && !IsSpace(u[0])
    ensures WordLen(u) >= 1
    ensures Words(u) == [u[..WordLen(u)]] + Words(u[WordLen(u)..])
  {
  }

  /** A trimmed string with more than one word is its first word, a run of
      whitespace and a trimmed rest. */
  lemma SplitTrimmed(s: string) returns (w: string, sp: string, r: string)
    requires s != [] && Trimmed(s) && WordLen(s) < |s|
    ensures s == w + sp + r
    ensures IsWord(w) && w == s[..WordLen(s)]
    ensures sp != [] && AllSpace(sp)
    ensures r != [] && Trimmed(r)
  {
    var n := WordLen(s);
    w := s[..n];
    var rest := s[n..];
    assert IsWord(w) && IsSpace(rest[0]) by {
      WordLenShape(s);
    }
    assert rest[|rest| - 1] == s[|s| - 1];
    sp, r := SplitSpaces(rest);
    assert s == w + rest;
  }

  /** A string that starts with whitespace and ends without it is a run of
      whitespace followed by a trimmed rest. */
  lemma SplitSpaces(rest: string) returns (sp: string, r: string)
    requires rest != [] && IsSpace(rest[0]) && !IsSpace(rest[|rest| - 1])
    ensures rest == sp + r
    ensures sp != [] && AllSpace(sp)
    ensures r != [] && Trimmed(r)
  {
    r := TrimStart(rest);
    TrimStartShape(rest);
    sp := rest[..|rest| - |r|];
    assert r[|r| - 1] == rest[|rest| - 1];
    assert rest == sp + r;
  }

  /** Collapsing a word, a run of whitespace and a string that starts with a
      word gives the word, one space, and the collapsed rest. */
  lemma CollapseOfSplit(w: string, sp: string, r: string)
    requires IsWord(w) && sp != [] && AllSpace(sp)
    requires r != [] && !IsSpace(r[0])
    ensures Collapse(w + sp + r) == w + " " + Collapse(r)
  {
    CollapseAfterWord(w, sp + r);
    CollapseSpacesBeforeWord(sp, r);
    assert w + sp + r == w + (sp + r);
  }

  /** The words of such a string are the word and the words of the rest. */
  lemma WordsOfSplit(w: string, sp: string, r: string)
    requires IsWord(w) && sp != [] && AllSpace(sp)
    ensures Words(w + sp + r) == [w] + Words(r)
  {
    var s := w + sp + r;
    assert s[0] == w[0];
    assert forall i :: 0 <= i < |w| ==> s[i] == w[i];
    assert s[|w|] == sp[0];
    WordLenAt(s, |w|);
    FirstWord(s);
    assert s[..|w|] == w;
    var rest := s[|w|..];
    assert rest == sp + r;
    assert forall i :: 0 <= i < |sp| ==> rest[i] == sp[i];
    WordsAfterSpaces(rest, |sp|);
    assert rest[|sp|..] == r;
  }

  /** One step of `CollapseTrimmedIsJoin`. */
  lemma CollapseWordThenMore(w: string, sp: string, r: string)
    requires IsWord(w) && sp != [] && AllSpace(sp)
    requires r != [] && !IsSpace(r[0])
    requires Collapse(r) == Join(Words(r))
    ensures Collapse(w + sp + r) == Join(Words(w + sp + r))
  {
    CollapseOfSplit(w, sp, r);
    WordsOfSplit(w, sp, r);
    FirstWord(r);
    var ws := [w] + Words(r);
    assert |ws| > 1 && ws[0] == w && ws[1..] == Words(r);
  }

  /** For a trimmed string, collapsing the runs of whitespace gives its words
      separated by single spaces. */
  lemma {:induction false} CollapseTrimmedIsJoin(s: string)
    requires Trimmed(s)
    ensures Collapse(s) == Join(Words(s))
    decreases |s|
  {
    if s != [] {
      var n := WordLen(s);
      WordLenShape(s);
      if n == |s| {
        FirstWord(s);
        assert s[..n] == s && s[n..] == [];
        CollapseAfterWord(s, []);
        assert s + [] == s;
      } else {
        var w, sp, r := SplitTrimmed(s);
        CollapseTrimmedIsJoin(r);
        CollapseWordThenMore(w, sp, r);
      }
    }
  }

  /** The reference definition: the normalised city is the words of the
      lower-cased input joined by single spaces. */
  lemma NormalizeIsJoinedWords(city: string)
    ensures Normalize(city) == Join(Words(Lower(city)))
  {
    var l := Lower(city);
    var t := Trim(l);
    WordsOfTrim(l);
    CollapseTrimmedIsJoin(t);
    TrimKeepsNoUpper(l);
    CollapseKeepsNoUpper(t);
  }

  /** Trimming does not change the words. */
  lemma WordsOfTrim(l: string)
    ensures Words(Trim(l)) == Words(l)
  {
    var u := TrimStart(l);
    var t := TrimEnd(u);
    assert Words(l) == Words(u) by {
      TrimStartShape(l);
      WordsAfterSpaces(l, |l| - |u|);
    }
    assert Words(u) == Words(t) by {
      TrimEndShape(u);
      assert u == t + u[|t|..];
      WordsBeforeSpaces(t, u[|t|..]);
    }
  }

  /** Trimming brings in no upper-case letter. */
  lemma TrimKeepsNoUpper(l: string)
    requires NoUpper(l)
    ensures NoUpper(Trim(l))
  {
    var u := TrimStart(l);
    var t := TrimEnd(u);
    TrimStartShape(l);
    TrimEndShape(u);
    forall i | 0 <= i < |t| ensures !IsUpper(t[i]) {
      assert t[i] == u[i] == l[|l| - |u| + i];
    }
  }

  // ---------------------------------------------------------------------------
  // Joining words and splitting them again.

  lemma {:induction false} JoinStartsWithWord(ws: seq<string>)
    requires ws != [] && IsWord(ws[0])
    ensures |Join(ws)| >= |ws[0]| && Join(ws)[..|ws[0]|] == ws[0]
  {
    if |ws| > 1 {
      assert Join(ws) == ws[0] + (" " + Join(ws[1..]));
    }
  }

  /** Splitting the joined words gives the words back. */
  lemma {:induction false} WordsOfJoin(ws: seq<string>)
    requires forall k :: 0 <= k < |ws| ==> IsWord(ws[k])
    ensures Words(Join(ws)) == ws
    decreases |ws|
  {
    if ws != [] {
      var w := ws[0];
      var j := Join(ws);
      JoinStartsWithWord(ws);
      assert j[0] == w[0];
      if |ws| == 1 {
        WordLenAt(j, |w|);
        assert j[|w|..] == [];
      } else {
        var j' := Join(ws[1..]);
        assert j == w + " " + j';
        WordLenAt(j, |w|);
        assert j[..|w|] == w;
        assert j[|w|..] == " " + j';
        WordsAfterSpaces(" " + j', 1);
        assert (" " + j')[1..] == j';
        WordsOfJoin(ws[1..]);
        assert Words(j) == [w] + Words(j[|w|..]);
      }
    }
  }

  // ---------------------------------------------------------------------------
  // What normalisation promises.

  /** A canonical string is its own normal form. */
  lemma NormalizeCanonical(s: string)
    requires Canonical(s)
    ensures Normalize(s) == s
  {
    assert Lower(s) == s;
    TrimStartAt(s, 0);
    TrimEndAt(s, |s|);
    assert s[0..] == s && s[..|s|] == s;
    CollapseFixesSingleSpaced(s);
  }

  /** Normalising twice is normalising once. */
  lemma NormalizeIdempotent(city: string)
    ensures Normalize(Normalize(city)) == Normalize(city)
  {
    NormalizeCanonical(Normalize(city));
  }

  /** Two inputs normalise alike exactly when, once lower-cased, they have the
      same words: they differ only in letter case and in where and how much
      whitespace surrounds and separates the words. */
  lemma SameNormalFormIffSameWords(a: string, b: string)
    ensures Normalize(a) == Normalize(b) <==> Words(Lower(a)) == Words(Lower(b))
  {
    NormalizeIsJoinedWords(a);
    NormalizeIsJoinedWords(b);
    if Normalize(a) == Normalize(b) {
      WordsAreWords(Lower(a));
      WordsAreWords(Lower(b));
      WordsOfJoin(Words(Lower(a)));
      WordsOfJoin(Words(Lower(b)));
    }
  }
}
