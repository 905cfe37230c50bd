/**
 * The content transform of `action.del` (action.js lines 164-169): two global
 * `String.prototype.replace` calls with fixed regular expressions,
 *
 *   pass 1:  \s*\/\/\{DEL.*?MARKER.*?\}[^\v]*?\/\/\{DEL\}   replaced by ''
 *   pass 2:  \s*\/\/\{DEL.*?\}                            replaced by ''
 *
 * with JavaScript's semantics: the scan is global and takes the leftmost match,
 * `.` stops at line terminators, `\s` includes them, `[^\v]` excludes only the
 * vertical tab, and a lazy quantifier tries the shortest extension first (a
 * match is the first one backtracking finds). Each sub-pattern is one search
 * function below, in the order the backtracking engine tries the alternatives.
 */
module MarkerStrip {

  datatype Option<T> = None | Some(value: T)

  const Opener: string := "//{DEL"
  const Closer: string := "//{DEL}"
  const VerticalTab: char := '\U{0B}'

  /** `\s`: white space and line terminators. */
  predicate IsSpace(c: char)
  {
    c == ' ' || c == '\t' || c == '\n' || c == VerticalTab || c == '\U{0C}' || c == '\r'
    || c == '\U{A0}' || c == '\U{1680}' || ('\U{2000}' <= c <= '\U{200A}')
    || c == '\U{2028}' || c == '\U{2029}' || c == '\U{202F}' || c == '\U{205F}'
    || c == '\U{3000}' || c == '\U{FEFF}'
  }

  /** The characters `.` does not match. */
  predicate IsLineTerminator(c: char)
  {
    c == '\n' || c == '\r' || c == '\U{2028}' || c == '\U{2029}'
  }

  /** A marker name as action.js line 148 allows it: digits, upper-case letters
      and `_`, so that it stands for itself inside the regular expression. */
  predicate ValidMarker(m: string)
  {
    |m| > 0 && forall c | c in m :: '0' <= c <= '9' || 'A' <= c <= 'Z' || c == '_'
  }

  /** `w` occurs in `s` at index `i`. */
  predicate At(s: string, i: nat, w: string)
  {
    i + |w| <= |s| && s[i..i + |w|] == w
  }

  predicate AllSpaces(s: string, a: nat, b: nat)
    requires a <= b <= |s|
  {
    forall x | a <= x < b :: IsSpace(s[x])
  }

  predicate NoLineTerminator(s: string, a: nat, b: nat)
    requires a <= b <= |s|
  {
    forall x | a <= x < b :: !IsLineTerminator(s[x])
  }

  predicate NoVerticalTab(s: string, a: nat, b: nat)
    requires a <= b <= |s|
  {
    forall x | a <= x < b :: s[x] != VerticalTab
  }

  // ---------------------------------------------------------------------------
  // Matching one occurrence, starting at a given index

  /** `\s*`: greedy; since the next character of both patterns is `/`, only
      the longest run of spaces can be followed by a match. */
  function SkipSpaces(s: string, p: nat): (q: nat)
    requires p <= |s|
    ensures p <= q <= |s| && AllSpaces(s, p, q)
    ensures q < |s| ==> !IsSpace(s[q])
    decreases |s| - p
  {
    if p < |s| && IsSpace(s[p]) then SkipSpaces(s, p + 1) else p
  }

  /** `[^\v]*?\/\/\{DEL\}` from index `l`: the end of the first closer reached
      without crossing a vertical tab. */
  function CloserEnd(s: string, l: nat): (r: Option<nat>)
    requires l <= |s|
    ensures r.Some? ==> l + |Closer| <= r.value <= |s|
    decreases |s| - l
  {
    if At(s, l, Closer) then Some(l + |Closer|)
    else if l < |s| && s[l] != VerticalTab then CloserEnd(s, l + 1)
    else None
  }

  /** `.*?\}[^\v]*?\/\/\{DEL\}` from index `j`: each `}` on the line is tried in
      turn until a closer can follow it. */
  function BraceThenCloser(s: string, j: nat): (r: Option<nat>)
    requires j <= |s|
    ensures r.Some? ==> j < r.value <= |s|
    decreases |s| - j
  {
    if j == |s| then None
    else
      var here := if s[j] == '}' then CloserEnd(s, j + 1) else None;
      if here.Some? then here
      else if IsLineTerminator(s[j]) then None
      else BraceThenCloser(s, j + 1)
  }

  /** `.*?MARKER.*?\}[^\v]*?\/\/\{DEL\}` from index `i`: each occurrence of the
      marker on the line is tried in turn. */
  function MarkerThenRest(s: string, i: nat, m: string): (r: Option<nat>)
    requires i <= |s|
    ensures r.Some? ==> i < r.value <= |s|
    decreases |s| - i
  {
    var here := if At(s, i, m) then BraceThenCloser(s, i + |m|) else None;
    if here.Some? then here
    else if i < |s| && !IsLineTerminator(s[i]) then MarkerThenRest(s, i + 1, m)
    else None
  }

  /** `.*?\}` from index `j`: the end of the first `}` on the line. */
  function BraceEnd(s: string, j: nat): (r: Option<nat>)
    requires j <= |s|
    ensures r.Some? ==> j < r.value <= |s|
    decreases |s| - j
  {
    if j == |s| then None
    else if s[j] == '}' then Some(j + 1)
    else if IsLineTerminator(s[j]) then None
    else BraceEnd(s, j + 1)
  }

  /** The two regular expressions: pass 1 for one marker, pass 2 for any token. */
  datatype Pattern = Span(marker: string) | Token

  /** The end of the match the regular expression finds starting at index `p`. */
  function MatchAt(pat: Pattern, s: string, p: nat): (r: Option<nat>)
    requires p <= |s|
    ensures r.Some? ==> p < r.value <= |s|
  {
    var q := SkipSpaces(s, p);
    if !At(s, q, Opener) then None
    else match pat
      case Span(m) => MarkerThenRest(s, q + |Opener|, m)
      case Token => BraceEnd(s, q + |Opener|)
  }

  /** `s.slice(from).replace(pattern, '')` with the `g` flag: scan for the
      leftmost match, drop it, continue after it. */
  function ReplaceAll(pat: Pattern, s: string, from: nat): string
    requires from <= |s|
    decreases |s| - from
  {
    if from == |s| then []
    else match MatchAt(pat, s, from)
      case Some(e) => ReplaceAll(pat, s, e)
      case None => [s[from]] + ReplaceAll(pat, s, from + 1)
  }

  /** The transform of action.js lines 165-169 for marker `m`. */
  function Strip(content: string, m: string): string
    requires ValidMarker(m)
  {
    var pass1 := ReplaceAll(Span(m), content, 0);
    ReplaceAll(Token, pass1, 0)
  }

  // ---------------------------------------------------------------------------
  // Stripping only deletes

  /** `t` is `s` with some characters left out. */
  predicate IsSubsequence(t: string, s: string)
    decreases |s|
  {
    if t == [] then true
    else if s == [] then false
    else (t[0] == s[0] && IsSubsequence(t[1..], s[1..])) || IsSubsequence(t, s[1..])
  }

  lemma {:induction false} SubsequenceOfLonger(t: string, x: string, s: string)
    requires IsSubsequence(t, s)
    ensures IsSubsequence(t, x + s)
    decreases |x|
  {
    if x == [] {
      assert x + s == s;
    } else if t != [] {
      SubsequenceOfLonger(t, x[1..], s);
      assert (x + s)[1..] == x[1..] + s;
    }
  }

  lemma {:induction false} SubsequenceTransitive(a: string, b: string, c: string)
    requires IsSubsequence(a, b) && IsSubsequence(b, c)
    ensures IsSubsequence(a, c)
    decreases |c|
  {
    if a != [] {
      assert b != [] && c != [];
      if b[0] == c[0] && IsSubsequence(b[1..], c[1..]) {
        if a[0] == b[0] && IsSubsequence(a[1..], b[1..]) {
          SubsequenceTransitive(a[1..], b[1..], c[1..]);
        } else {
          SubsequenceTransitive(a, b[1..], c[1..]);
        }
      } else {
        SubsequenceTransitive(a, b, c[1..]);
      }
    }
  }

  lemma {:induction false} SubsequenceNotLonger(t: string, s: string)
    requires IsSubsequence(t, s)
    ensures |t| <= |s|
    decreases |s|
  {
    if t != [] {
      if t[0] == s[0] && IsSubsequence(t[1..], s[1..]) {
        SubsequenceNotLonger(t[1..], s[1..]);
      } else {
        SubsequenceNotLonger(t, s[1..]);
      }
    }
  }

  /** A global replace by '' keeps the unmatched characters in order. */
  lemma {:induction false} ReplaceAllDeletes(pat: Pattern, s: string, from: nat)
    requires from <= |s|
    ensures IsSubsequence(ReplaceAll(pat, s, from), s[from..])
    decreases |s| - from
  {
    if from < |s| {
      match MatchAt(pat, s, from)
      case Some(e) =>
        ReplaceAllDeletes(pat, s, e);
        SubsequenceOfLonger(ReplaceAll(pat, s, e), s[from..e], s[e..]);
        assert s[from..e] + s[e..] == s[from..];
      case None =>
        ReplaceAllDeletes(pat, s, from + 1);
        assert s[from..] == [s[from]] + s[from + 1..];
    }
  }

  /** Marker stripping only deletes substrings: the result is the content with
      some characters left out, so it is never longer. */
  lemma StripDeletes(content: string, m: string)
    requires ValidMarker(m)
    ensures IsSubsequence(Strip(content, m), content)
    ensures |Strip(content, m)| <= |content|
  {
    var pass1 := ReplaceAll(Span(m), content, 0);
    ReplaceAllDeletes(Span(m), content, 0);
    ReplaceAllDeletes(Token, pass1, 0);
    assert content[0..] == content && pass1[0..] == pass1;
    SubsequenceTransitive(Strip(content, m), pass1, content);
    SubsequenceNotLonger(Strip(content, m), content);
  }

  // ---------------------------------------------------------------------------
  // Content that cannot match is returned unchanged

  /** Where no match starts, the global replace copies the content. */
  lemma {:induction false} ReplaceAllNoMatch(pat: Pattern, s: string, from: nat)
    requires from <= |s|
    requires forall p | from <= p < |s| :: MatchAt(pat, s, p) == None
    ensures ReplaceAll(pat, s, from) == s[from..]
    decreases |s| - from
  {
    if from < |s| {
      ReplaceAllNoMatch(pat, s, from + 1);
      assert s[from..] == [s[from]] + s[from + 1..];
    }
  }

  /** Content with no `//{DEL` in it is returned unchanged. */
  lemma StripWithoutOpener(content: string, m: string)
    requires ValidMarker(m)
    requires forall i | 0 <= i < |content| :: !At(content, i, Opener)
    ensures Strip(content, m) == content
  {
    forall pat: Pattern, p | 0 <= p < |content| ensures MatchAt(pat, content, p) == None {
      var q := SkipSpaces(content, p);
      assert !At(content, q, Opener);
    }
    ReplaceAllNoMatch(Span(m), content, 0);
    ReplaceAllNoMatch(Token, content, 0);
  }

  lemma {:induction false} MarkerThenRestAbsent(s: string, i: nat, m: string)
    requires i <= |s| && forall x | 0 <= x < |s| :: !At(s, x, m)
    ensures MarkerThenRest(s, i, m) == None
    decreases |s| - i
  {
    if i < |s| {
      MarkerThenRestAbsent(s, i + 1, m);
    }
  }

  lemma SpanAbsentMarker(s: string, m: string, p: nat)
    requires p <= |s| && forall x | 0 <= x < |s| :: !At(s, x, m)
    ensures MatchAt(Span(m), s, p) == None
  {
    var q := SkipSpaces(s, p);
    if At(s, q, Opener) {
      MarkerThenRestAbsent(s, q + |Opener|, m);
    }
  }

  /** When the marker does not occur in the content, pass 1 removes nothing:
      only pass 2 acts, deleting the bare `//{DEL…}` tokens of other markers. */
  lemma StripAbsentMarker(content: string, m: string)
    requires ValidMarker(m)
    requires forall i | 0 <= i < |content| :: !At(content, i, m)
    ensures Strip(content, m) == ReplaceAll(Token, content, 0)
  {
    forall p | 0 <= p < |content| ensures MatchAt(Span(m), content, p) == None {
      SpanAbsentMarker(content, m, p);
    }
    ReplaceAllNoMatch(Span(m), content, 0);
    assert content[0..] == content;
  }

  // ---------------------------------------------------------------------------
  // What a match is

  /** Leading white space: every start inside a run of spaces finds the match
      found after the run, so a match takes the spaces before it with it. */
  lemma {:induction false} MatchAfterSpaces(pat: Pattern, s: string, p: nat, q: nat)
    requires p <= q <= |s| && AllSpaces(s, p, q)
    ensures MatchAt(pat, s, p) == MatchAt(pat, s, q)
    decreases q - p
  {
    if p < q {
      MatchAfterSpaces(pat, s, p + 1, q);
    }
  }

  /** The scan reaching the spaces before a match removes them with it. */
  lemma ReplaceAllTakesSpaces(pat: Pattern, s: string, p: nat, q: nat)
    requires p <= q < |s| && AllSpaces(s, p, q) && MatchAt(pat, s, q).Some?
    ensures ReplaceAll(pat, s, p) == ReplaceAll(pat, s, MatchAt(pat, s, q).value)
  {
    MatchAfterSpaces(pat, s, p, q);
  }

  lemma {:induction false} SkipSpacesStopsAt(s: string, p: nat, q: nat)
    requires p <= q < |s| && AllSpaces(s, p, q) && !IsSpace(s[q])
    ensures SkipSpaces(s, p) == q
    decreases q - p
  {
    if p < q {
      SkipSpacesStopsAt(s, p + 1, q);
    }
  }

  /** Positions of one way pass 1's pattern matches: the opener at `q`, the
      marker at `i`, the opener's `}` at `j`, the closer at `l`. */
  datatype SpanShape = SpanShape(q: nat, i: nat, j: nat, l: nat)

  /** `\s*\/\/\{DEL.*?MARKER.*?\}[^\v]*?\/\/\{DEL\}` can match
      `s[p..w.l + |Closer|]` as `w` lays it out. */
  predicate SpanMatches(s: string, m: string, p: nat, w: SpanShape)
  {
    && p <= w.q && w.q + |Opener| <= w.i && w.i + |m| <= w.j && w.j < w.l && w.l + |Closer| <= |s|
    && AllSpaces(s, p, w.q) && At(s, w.q, Opener)
    && NoLineTerminator(s, w.q + |Opener|, w.i) && At(s, w.i, m)
    && NoLineTerminator(s, w.i + |m|, w.j) && s[w.j] == '}'
    && NoVerticalTab(s, w.j + 1, w.l) && At(s, w.l, Closer)
  }

  lemma {:induction false} CloserEndSound(s: string, l0: nat) returns (l: nat)
    requires l0 <= |s| && CloserEnd(s, l0).Some?
    ensures l0 <= l && CloserEnd(s, l0).value == l + |Closer|
    ensures At(s, l, Closer) && NoVerticalTab(s, l0, l)
    ensures forall x | l0 <= x < l :: !At(s, x, Closer)
    decreases |s| - l0
  {
    if At(s, l0, Closer) {
      l := l0;
    } else {
      l := CloserEndSound(s, l0 + 1);
    }
  }

  lemma {:induction false} BraceThenCloserSound(s: string, j0: nat) returns (j: nat)
    requires j0 <= |s| && BraceThenCloser(s, j0).Some?
    ensures j0 <= j < |s| && s[j] == '}' && NoLineTerminator(s, j0, j)
    ensures CloserEnd(s, j + 1) == BraceThenCloser(s, j0)
    decreases |s| - j0
  {
    if s[j0] == '}' && CloserEnd(s, j0 + 1).Some? {
      j := j0;
    } else {
      j := BraceThenCloserSound(s, j0 + 1);
    }
  }

  lemma {:induction false} MarkerThenRestSound(s: string, i0: nat, m: string) returns (i: nat)
    requires i0 <= |s| && MarkerThenRest(s, i0, m).Some?
    ensures i0 <= i && At(s, i, m) && NoLineTerminator(s, i0, i)
    ensures BraceThenCloser(s, i + |m|) == MarkerThenRest(s, i0, m)
    decreases |s| - i0
  {
    if At(s, i0, m) && BraceThenCloser(s, i0 + |m|).Some? {
      i := i0;
    } else {
      i := MarkerThenRestSound(s, i0 + 1, m);
    }
  }

  /** Pass 1, soundness: what it removes at `p` is white space, an opener
      holding the marker before its `}` on the same line, and everything up to
      and including the first `//{DEL}` after that `}`. */
  lemma SpanMatchSound(s: string, m: string, p: nat)
    requires p <= |s| && MatchAt(Span(m), s, p).Some?
    ensures exists w :: SpanMatches(s, m, p, w) && MatchAt(Span(m), s, p).value == w.l + |Closer|
                        && forall x | w.j < x < w.l :: !At(s, x, Closer)
  {
    var q := SkipSpaces(s, p);
    var o := q + |Opener|;
    assert At(s, q, Opener) && MatchAt(Span(m), s, p) == MarkerThenRest(s, o, m);
    var i, j, l := MarkerOnwardSound(s, m, o);
    var w := SpanShape(q, i, j, l);
    assert SpanMatches(s, m, p, w);
  }

  /** The part of pass 1's pattern after the opener, found from index `o`. */
  lemma MarkerOnwardSound(s: string, m: string, o: nat) returns (i: nat, j: nat, l: nat)
    requires o <= |s| && MarkerThenRest(s, o, m).Some?
    ensures o <= i && i + |m| <= j < l && l + |Closer| <= |s|
    ensures NoLineTerminator(s, o, i) && At(s, i, m)
    ensures NoLineTerminator(s, i + |m|, j) && s[j] == '}'
    ensures NoVerticalTab(s, j + 1, l) && At(s, l, Closer)
    ensures MarkerThenRest(s, o, m) == Some(l + |Closer|)
    ensures forall x | j < x < l :: !At(s, x, Closer)
  {
    i := MarkerThenRestSound(s, o, m);
    j := BraceThenCloserSound(s, i + |m|);
    l := CloserEndSound(s, j + 1);
  }

  lemma {:induction false} CloserEndComplete(s: string, l0: nat, l: nat)
    requires l0 <= l && At(s, l, Closer) && NoVerticalTab(s, l0, l)
    ensures CloserEnd(s, l0).Some?
    decreases l - l0
  {
    if l0 < l && !At(s, l0, Closer) {
      CloserEndComplete(s, l0 + 1, l);
    }
  }

  lemma {:induction false} BraceThenCloserComplete(s: string, j0: nat, j: nat)
    requires j0 <= j < |s| && s[j] == '}' && NoLineTerminator(s, j0, j) && CloserEnd(s, j + 1).Some?
    ensures BraceThenCloser(s, j0).Some?
    decreases j - j0
  {
    if j0 < j {
      BraceThenCloserComplete(s, j0 + 1, j);
    }
  }

  lemma {:induction false} MarkerThenRestComplete(s: string, i0: nat, i: nat, m: string)
    requires i0 <= i && At(s, i, m) && NoLineTerminator(s, i0, i) && BraceThenCloser(s, i + |m|).Some?
    ensures MarkerThenRest(s, i0, m).Some?
    decreases i - i0
  {
    if i0 < i {
      MarkerThenRestComplete(s, i0 + 1, i, m);
    }
  }

  /** Pass 1, completeness: wherever the pattern can match at `p` in some way,
      the backtracking search finds a match there. */
  lemma SpanMatchComplete(s: string, m: string, p: nat, w: SpanShape)
    requires SpanMatches(s, m, p, w)
    ensures MatchAt(Span(m), s, p).Some?
  {
    SkipSpacesStopsAt(s, p, w.q);
    var o := w.q + |Opener|;
    MarkerOnwardComplete(s, m, o, w);
    assert MatchAt(Span(m), s, p) == MarkerThenRest(s, o, m);
  }

  /** Pass 1, laziness: the match ends no later than any way the pattern can
      match at `p`. With `SpanMatchSound`, the end is the smallest end any
      shape allows: the first `}` after the marker from which a closer can be
      reached, and the first closer after it. */
  lemma SpanMatchShortest(s: string, m: string, p: nat, w: SpanShape)
    requires ValidMarker(m) && SpanMatches(s, m, p, w)
    ensures MatchAt(Span(m), s, p).Some? && MatchAt(Span(m), s, p).value <= w.l + |Closer|
  {
    SkipSpacesStopsAt(s, p, w.q);
    var o := w.q + |Opener|;
    MarkerThenRestAtMost(s, m, o, w);
    assert MatchAt(Span(m), s, p) == MarkerThenRest(s, o, m);
  }

  /** A closer is found no later than a closer at `l`. */
  lemma {:induction false} CloserEndAtMost(s: string, l0: nat, l: nat)
    requires l0 <= l && At(s, l, Closer) && CloserEnd(s, l0).Some?
    ensures CloserEnd(s, l0).value <= l + |Closer|
    decreases l - l0
  {
    if !At(s, l0, Closer) {
      CloserEndAtMost(s, l0 + 1, l);
    }
  }

  /** The `}` tried first that a closer can follow ends the match no later than
      the closer at `l` after the `}` at `j`. */
  lemma {:induction false} BraceThenCloserAtMost(s: string, j0: nat, j: nat, l: nat)
    requires j0 <= j < l && At(s, l, Closer) && s[j] == '}'
    requires NoLineTerminator(s, j0, j) && NoVerticalTab(s, j + 1, l)
    ensures BraceThenCloser(s, j0).Some? && BraceThenCloser(s, j0).value <= l + |Closer|
    decreases j - j0
  {
    if s[j0] == '}' && CloserEnd(s, j0 + 1).Some? {
      CloserEndAtMost(s, j0 + 1, l);
    } else if j0 == j {
      CloserEndComplete(s, j + 1, l);
      assert false;
    } else {
      BraceThenCloserAtMost(s, j0 + 1, j, l);
    }
  }

  /** The characters of a valid marker are not line terminators. */
  lemma MarkerOnOneLine(s: string, i: nat, m: string)
    requires ValidMarker(m) && At(s, i, m)
    ensures NoLineTerminator(s, i, i + |m|)
  {
    forall x | i <= x < i + |m|
      ensures !IsLineTerminator(s[x])
    {
      assert s[x] == s[i..i + |m|][x - i];
      assert s[x] in m;
    }
  }

  /** The marker occurrence tried first that a `}` and a closer can follow
      ends the match no later than the shape `w`. */
  lemma {:induction false} MarkerThenRestAtMost(s: string, m: string, i0: nat, w: SpanShape)
    requires ValidMarker(m)
    requires i0 <= w.i && w.i + |m| <= w.j && w.j < w.l && w.l + |Closer| <= |s|
    requires NoLineTerminator(s, i0, w.i) && At(s, w.i, m)
    requires NoLineTerminator(s, w.i + |m|, w.j) && s[w.j] == '}'
    requires NoVerticalTab(s, w.j + 1, w.l) && At(s, w.l, Closer)
    ensures MarkerThenRest(s, i0, m).Some? && MarkerThenRest(s, i0, m).value <= w.l + |Closer|
    decreases w.i - i0
  {
    if At(s, i0, m) {
      MarkerOnOneLine(s, w.i, m);
      assert NoLineTerminator(s, i0 + |m|, w.j);
      BraceThenCloserAtMost(s, i0 + |m|, w.j, w.l);
    } else {
      assert i0 < w.i;
      MarkerThenRestAtMost(s, m, i0 + 1, w);
    }
  }

  /** The part of pass 1's pattern after the opener. */
  lemma MarkerOnwardComplete(s: string, m: string, o: nat, w: SpanShape)
    requires o <= w.i && w.i + |m| <= w.j && w.j < w.l && w.l + |Closer| <= |s|
    requires NoLineTerminator(s, o, w.i) && At(s, w.i, m)
    requires NoLineTerminator(s, w.i + |m|, w.j) && s[w.j] == '}'
    requires NoVerticalTab(s, w.j + 1, w.l) && At(s, w.l, Closer)
    ensures MarkerThenRest(s, o, m).Some?
  {
    CloserEndComplete(s, w.j + 1, w.l);
    BraceThenCloserComplete(s, w.i + |m|, w.j);
    MarkerThenRestComplete(s, o, w.i, m);
  }

  lemma {:induction false} BraceEndIsFirstBrace(s: string, j0: nat, e: nat)
    requires j0 <= |s|
    ensures BraceEnd(s, j0) == Some(e) <==>
      j0 < e <= |s| && s[e - 1] == '}' && NoLineTerminator(s, j0, e - 1)
      && forall x | j0 <= x < e - 1 :: s[x] != '}'
    decreases |s| - j0
  {
    if j0 < |s| && s[j0] != '}' && !IsLineTerminator(s[j0]) {
      BraceEndIsFirstBrace(s, j0 + 1, e);
    }
  }

  /** Pass 2: what it removes at `p` is exactly the white space there and a
      `//{DEL` token up to the first `}` on its line. */
  lemma TokenMatch(s: string, p: nat, e: nat)
    requires p <= |s|
    ensures MatchAt(Token, s, p) == Some(e) <==>
      var q := SkipSpaces(s, p);
      && At(s, q, Opener) && q + |Opener| < e <= |s| && s[e - 1] == '}'
      && NoLineTerminator(s, q + |Opener|, e - 1)
      && forall x | q + |Opener| <= x < e - 1 :: s[x] != '}'
  {
    var q := SkipSpaces(s, p);
    if At(s, q, Opener) {
      BraceEndIsFirstBrace(s, q + |Opener|, e);
    }
  }

  // ---------------------------------------------------------------------------
  // A worked example

  lemma NotAt(s: string, i: nat, w: string)
    requires i < |s| && |w| > 0 && s[i] != w[0]
    ensures !At(s, i, w)
  {
    if i + |w| <= |s| {
      assert s[i..i + |w|][0] == s[i];
    }
  }

  /** Text with no white space and no `/`: no match can start in it. */
  predicate Inert(t: string)
    decreases |t|
  {
    t == [] || (t[0] != '/' && !IsSpace(t[0]) && Inert(t[1..]))
  }

  /** A stretch of inert text is copied unchanged. */
  lemma {:induction false} ReplaceAllCopies(pat: Pattern, s: string, from: nat, to: nat)
    requires from <= to <= |s| && Inert(s[from..to])
    ensures ReplaceAll(pat, s, from) == s[from..to] + ReplaceAll(pat, s, to)
    decreases |s| - from
  {
    if from < to {
      assert s[from..to][0] == s[from];
      assert SkipSpaces(s, from) == from;
      NotAt(s, from, Opener);
      assert MatchAt(pat, s, from) == None;
      assert s[from..to][1..] == s[from + 1..to];
      ReplaceAllCopies(pat, s, from + 1, to);
      assert s[from..to] == [s[from]] + s[from + 1..to];
    }
  }

  /** Content without a `/` holds no token, so neither pass changes it. */
  lemma ReplaceAllWithoutSlash(pat: Pattern, s: string)
    requires '/' !in s
    ensures ReplaceAll(pat, s, 0) == s
  {
    forall p | 0 <= p < |s| ensures MatchAt(pat, s, p) == None {
      var q := SkipSpaces(s, p);
      if q < |s| {
        NotAt(s, q, Opener);
      }
    }
    ReplaceAllNoMatch(pat, s, 0);
  }

  /** The lazy search for a closer passes over text with no `/` and no
      vertical tab. */
  lemma {:induction false} CloserEndSkips(s: string, a: nat, b: nat)
    requires a <= b <= |s|
    requires '/' !in s[a..b] && VerticalTab !in s[a..b]
    ensures CloserEnd(s, a) == CloserEnd(s, b)
    decreases b - a
  {
    if a < b {
      assert s[a] in s[a..b];
      NotAt(s, a, Closer);
      assert s[a + 1..b] == s[a..b][1..];
      CloserEndSkips(s, a + 1, b);
    }
  }

  // The example's content is a parameter described character by character:
  // with the literal itself in scope the verifier would reason about every
  // slice through the whole literal. Its landmarks: the opener at 5, the
  // marker at 12, the opener's `}` at 15, the closer at 22..29.

  const ExampleText: string := "keep //{DEL FOO} drop //{DEL} keep2"

  /** ExampleText, one character at a time. */
  predicate ExampleChars(s: string)
  {
    && |s| == 35
    && s[0] == 'k' && s[1] == 'e' && s[2] == 'e' && s[3] == 'p' && s[4] == ' '
    && s[5] == '/' && s[6] == '/' && s[7] == '{' && s[8] == 'D' && s[9] == 'E' && s[10] == 'L'
    && s[11] == ' ' && s[12] == 'F' && s[13] == 'O' && s[14] == 'O' && s[15] == '}'
    && s[16] == ' ' && s[17] == 'd' && s[18] == 'r' && s[19] == 'o' && s[20] == 'p' && s[21] == ' '
    && s[22] == '/' && s[23] == '/' && s[24] == '{' && s[25] == 'D' && s[26] == 'E' && s[27] == 'L' && s[28] == '}'
    && s[29] == ' ' && s[30] == 'k' && s[31] == 'e' && s[32] == 'e' && s[33] == 'p' && s[34] == '2'
  }

  lemma ExampleTextChars(s: string)
    requires s == ExampleText
    ensures ExampleChars(s)
  {
    ExampleTextKeep(s);
    ExampleTextOpener(s);
    ExampleTextMarker(s);
    ExampleTextCloser(s);
    ExampleTextKeep2(s);
  }

  lemma ExampleTextKeep(s: string)
    requires s == ExampleText
    ensures |s| == 35
    ensures s[0] == 'k' && s[1] == 'e' && s[2] == 'e' && s[3] == 'p' && s[4] == ' ' && s[5] == '/' && s[6] == '/'
  {
  }

  lemma ExampleTextOpener(s: string)
    requires s == ExampleText
    ensures s[7] == '{' && s[8] == 'D' && s[9] == 'E' && s[10] == 'L' && s[11] == ' ' && s[12] == 'F' && s[13] == 'O'
  {
  }

  lemma ExampleTextMarker(s: string)
    requires s == ExampleText
    ensures s[14] == 'O' && s[15] == '}' && s[16] == ' ' && s[17] == 'd' && s[18] == 'r' && s[19] == 'o' && s[20] == 'p'
  {
  }

  lemma ExampleTextCloser(s: string)
    requires s == ExampleText
    ensures s[21] == ' ' && s[22] == '/' && s[23] == '/' && s[24] == '{' && s[25] == 'D' && s[26] == 'E' && s[27] == 'L'
  {
  }

  lemma ExampleTextKeep2(s: string)
    requires s == ExampleText
    ensures s[28] == '}' && s[29] == ' ' && s[30] == 'k' && s[31] == 'e' && s[32] == 'e' && s[33] == 'p' && s[34] == '2'
  {
  }

  lemma ExampleLandmarks(s: string)
    requires ExampleChars(s)
    ensures At(s, 5, Opener) && At(s, 12, "FOO") && At(s, 22, Closer)
    ensures SkipSpaces(s, 4) == 5 && SkipSpaces(s, 29) == 30
  {
    assert s[5..11] == [s[5], s[6], s[7], s[8], s[9], s[10]];
    assert s[12..15] == [s[12], s[13], s[14]];
    assert s[22..29] == [s[22], s[23], s[24], s[25], s[26], s[27], s[28]];
    assert SkipSpaces(s, 5) == 5;
    assert SkipSpaces(s, 30) == 30;
  }

  lemma ExampleMarkerFound(s: string)
    requires ExampleChars(s)
    ensures MarkerThenRest(s, 12, "FOO") == Some(29)
  {
    assert s[16..22] == " drop ";
    CloserEndSkips(s, 16, 22);
    ExampleLandmarks(s);
    assert CloserEnd(s, 16) == Some(29);
    assert BraceThenCloser(s, 15) == Some(29);
  }

  /** The match starts at the space before the opener and ends after the
      closer; the space after the closer starts no match. */
  lemma ExampleMatches(s: string)
    requires ExampleChars(s)
    ensures MatchAt(Span("FOO"), s, 4) == Some(29)
    ensures MatchAt(Span("FOO"), s, 29) == None
  {
    ExampleMarkerFound(s);
    NotAt(s, 11, "FOO");
    assert MarkerThenRest(s, 11, "FOO") == Some(29);
    ExampleLandmarks(s);
    NotAt(s, 30, Opener);
  }

  /** From the space before the opener: the span goes, and the text after
      it is kept. */
  lemma ExampleTail(s: string)
    requires ExampleChars(s)
    ensures ReplaceAll(Span("FOO"), s, 4) == " keep2"
  {
    ExampleMatches(s);
    ExampleAfterSpan(s);
  }

  /** The space after the closer starts no match, and "keep2" none either. */
  lemma ExampleAfterSpan(s: string)
    requires ExampleChars(s)
    ensures ReplaceAll(Span("FOO"), s, 29) == " keep2"
  {
    var pat := Span("FOO");
    ExampleMatches(s);
    assert s[30..35] == "keep2" && Inert("keep2");
    ReplaceAllCopies(pat, s, 30, 35);
    assert ReplaceAll(pat, s, 35) == [];
    assert ReplaceAll(pat, s, 29) == [s[29]] + "keep2";
  }

  /** Before the span: "keep" starts no match. */
  lemma ExampleHead(s: string)
    requires ExampleChars(s)
    ensures ReplaceAll(Span("FOO"), s, 0) == "keep" + ReplaceAll(Span("FOO"), s, 4)
  {
    assert s[0..4] == "keep" && Inert("keep");
    ReplaceAllCopies(Span("FOO"), s, 0, 4);
  }

  lemma ExamplePass1(s: string)
    requires ExampleChars(s)
    ensures ReplaceAll(Span("FOO"), s, 0) == "keep keep2"
  {
    ExampleHead(s);
    ExampleTail(s);
    ExampleJoin();
  }

  lemma ExampleJoin()
    ensures "keep" + " keep2" == "keep keep2"
  {
    var head, tail := "keep", " keep2";
    assert |head + tail| == 10;
    assert forall x | 0 <= x < 4 :: (head + tail)[x] == head[x];
  }

  /** Stripping `FOO` from "keep //{DEL FOO} drop //{DEL} keep2" leaves
      "keep keep2": the span goes with the space before it. */
  lemma StripExample(s: string)
    requires s == ExampleText
    ensures Strip(s, "FOO") == "keep keep2"
  {
    ExampleTextChars(s);
    ExamplePass1(s);
    var pass1: string := "keep keep2";
    assert '/' !in pass1;
    ReplaceAllWithoutSlash(Token, pass1);
  }
}
