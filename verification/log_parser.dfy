/**
 The failed-test scanner: `preg_match_all` of the pattern
 `\d+\)\s+([A-Za-z_\\]+::[A-Za-z_]+)` over a console log, returning the captured
 identifiers.

 Because `)` is not a digit, white space is not an identifier character and `:` is not a
 class-name character, every greedy run in the pattern is maximal and no backtracking can
 change a match. The scanner below is therefore deterministic: at each position it either
 reads one match (a maximal run of digits, `)`, a maximal run of white space, a maximal
 run of class-name characters, `::`, a maximal run of method-name characters) and resumes
 after it, or moves on by one character.

 The grammar is parameterised by `Charset`. `AsWritten` is the character classes exactly
 as the pattern spells them; `WithDigits` also admits digits in both parts of an
 identifier, which is what the project's own test suite expects.
 */
module LogParser {
  import opened Wrappers
  import opened Text

  datatype Charset = AsWritten | WithDigits

  /** `[A-Za-z_\\]`, plus digits in the corrected grammar. */
  predicate ClassChar(g: Charset, c: char) {
    IsLetter(c) || c == '_' || c == '\\' || (g.WithDigits? && IsDigit(c))
  }

  /** `[A-Za-z_]`, plus digits in the corrected grammar. */
  predicate MethodChar(g: Charset, c: char) {
    IsLetter(c) || c == '_' || (g.WithDigits? && IsDigit(c))
  }

  /** The four repeated character classes of the pattern. */
  datatype CharClass = Digits | Spaces | ClassName(g: Charset) | MethodName(g: Charset)

  predicate InClass(k: CharClass, c: char) {
    match k
    case Digits => IsDigit(c)
    case Spaces => IsSpace(c)
    case ClassName(g) => ClassChar(g, c)
    case MethodName(g) => MethodChar(g, c)
  }

  /** Every character of `s[i..j]` belongs to class `k`. */
  ghost predicate AllIn(s: string, i: nat, j: nat, k: CharClass)
    requires i <= j <= |s|
  {
    forall t :: i <= t < j ==> InClass(k, s[t])
  }

  /** The end of the greedy run of class `k` that starts at `i`. */
  function RunEnd(s: string, i: nat, k: CharClass): (e: nat)
    requires i <= |s|
    ensures i <= e <= |s|
    decreases |s| - i
  {
    if i == |s| || !InClass(k, s[i]) then i else RunEnd(s, i + 1, k)
  }

  /** The run found by `RunEnd` is all of class `k` and cannot be extended. */
  lemma {:induction false} RunEndMaximal(s: string, i: nat, k: CharClass)
    requires i <= |s|
    ensures AllIn(s, i, RunEnd(s, i, k), k)
    ensures RunEnd(s, i, k) == |s| || !InClass(k, s[RunEnd(s, i, k)])
    decreases |s| - i
  {
    if i < |s| && InClass(k, s[i]) {
      RunEndMaximal(s, i + 1, k);
    }
  }

  /**
   One match: the marker starts at `start`, the captured identifier is `s[name..end]`.
   */
  datatype Hit = Hit(start: nat, name: nat, end: nat)

  /** The `\d+\)\s+` marker at `p`: where the identifier after it starts, if the marker is there. */
  function MarkerEnd(s: string, p: nat): (w: Option<nat>)
    requires p <= |s|
    ensures w.Some? ==> p < w.value <= |s|
  {
    var d := RunEnd(s, p, Digits);
    if d == p || d == |s| || s[d] != ')' then None
    else
      var w := RunEnd(s, d + 1, Spaces);
      if w == d + 1 then None else Some(w)
  }

  /** The `[C]+::[M]+` identifier at `w`: where it ends, if one starts there. */
  function NameEnd(s: string, w: nat, g: Charset): (e: Option<nat>)
    requires w <= |s|
    ensures e.Some? ==> w < e.value <= |s|
  {
    var c := RunEnd(s, w, ClassName(g));
    if c == w || |s| < c + 2 || s[c] != ':' || s[c + 1] != ':' then None
    else
      var e := RunEnd(s, c + 2, MethodName(g));
      if e == c + 2 then None else Some(e)
  }

  /** The match of the pattern that starts exactly at `p`, if there is one. */
  function MatchAt(s: string, p: nat, g: Charset): (h: Option<Hit>)
    requires p <= |s|
    ensures h.Some? ==> h.value.start == p && p < h.value.name < h.value.end <= |s|
  {
    match MarkerEnd(s, p)
    case None => None
    case Some(w) =>
      match NameEnd(s, w, g)
      case None => None
      case Some(e) => Some(Hit(p, w, e))
  }

  /**
   `s[p..e]` is a word of the pattern's language, split as digits `s[p..d]`, `)` at `d`,
   white space `s[d+1..w]`, class name `s[w..c]`, `::` at `c`, method name `s[c+2..e]`.
   */
  ghost predicate Pattern(s: string, g: Charset, p: nat, d: nat, w: nat, c: nat, e: nat) {
    && p < d && d + 1 < w && w < c && c + 2 < e <= |s|
    && AllIn(s, p, d, Digits) && s[d] == ')'
    && AllIn(s, d + 1, w, Spaces)
    && AllIn(s, w, c, ClassName(g)) && s[c] == ':' && s[c + 1] == ':'
    && AllIn(s, c + 2, e, MethodName(g))
  }

  /** `t` has the shape of a test identifier: class-name characters, `::`, method-name characters. */
  ghost predicate IsTestId(g: Charset, t: string) {
    exists c: nat :: 0 < c && c + 2 < |t| && AllIn(t, 0, c, ClassName(g)) && t[c] == ':' && t[c + 1] == ':'
      && AllIn(t, c + 2, |t|, MethodName(g))
  }

  /** `m` is a failure-listing marker: digits, `)`, white space. */
  ghost predicate IsMarker(m: string) {
    exists d: nat :: 0 < d && d + 1 < |m| && AllIn(m, 0, d, Digits) && m[d] == ')' && AllIn(m, d + 1, |m|, Spaces)
  }

  /** No digit in `s` is immediately followed by `)`. */
  ghost predicate NoMarker(s: string) {
    forall k :: 0 <= k < |s| - 1 ==> !(IsDigit(s[k]) && s[k + 1] == ')')
  }

  lemma {:induction false} RunEndAtLeast(s: string, i: nat, j: nat, k: CharClass)
    requires i <= j <= |s| && AllIn(s, i, j, k)
    ensures j <= RunEnd(s, i, k)
    decreases j - i
  {
    if i < j {
      RunEndAtLeast(s, i + 1, j, k);
    }
  }

  /** A run of class `k` that is followed by a character outside `k` ends exactly there. */
  lemma RunEndExact(s: string, i: nat, j: nat, k: CharClass)
    requires i <= j <= |s| && AllIn(s, i, j, k) && (j == |s| || !InClass(k, s[j]))
    ensures RunEnd(s, i, k) == j
  {
    RunEndAtLeast(s, i, j, k);
    RunEndMaximal(s, i, k);
  }

  /** What the scanner reports at `p` is a match of the pattern whose method name is maximal. */
  lemma MatchAtSound(s: string, p: nat, g: Charset)
    requires p <= |s| && MatchAt(s, p, g).Some?
    ensures var h := MatchAt(s, p, g).value;
      && (exists d: nat, c: nat :: Pattern(s, g, p, d, h.name, c, h.end))
      && (h.end == |s| || !MethodChar(g, s[h.end]))
  {
    var h := MatchAt(s, p, g).value;
    var d := RunEnd(s, p, Digits);
    var c := RunEnd(s, h.name, ClassName(g));
    RunEndMaximal(s, p, Digits);
    RunEndMaximal(s, d + 1, Spaces);
    RunEndMaximal(s, h.name, ClassName(g));
    RunEndMaximal(s, c + 2, MethodName(g));
    assert Pattern(s, g, p, d, h.name, c, h.end);
  }

  /**
   Whenever the pattern matches at `p` in any way, the scanner reports a match at `p` with
   the same identifier start, reaching at least as far, and exactly as far when the method
   name cannot be extended: no match is missed and none is cut short.
   */
  lemma MatchAtComplete(s: string, g: Charset, p: nat, d: nat, w: nat, c: nat, e: nat)
    requires Pattern(s, g, p, d, w, c, e)
    ensures MatchAt(s, p, g).Some?
    ensures MatchAt(s, p, g).value.name == w && e <= MatchAt(s, p, g).value.end
    ensures e == |s| || !MethodChar(g, s[e]) ==> MatchAt(s, p, g).value.end == e
  {
    RunEndExact(s, p, d, Digits);
    RunEndExact(s, d + 1, w, Spaces);
    RunEndExact(s, w, c, ClassName(g));
    RunEndAtLeast(s, c + 2, e, MethodName(g));
    if e == |s| || !MethodChar(g, s[e]) {
      RunEndExact(s, c + 2, e, MethodName(g));
    }
  }

  /** The pieces of a pattern match: a marker, then an identifier of the right shape. */
  lemma PatternParts(s: string, g: Charset, p: nat, d: nat, w: nat, c: nat, e: nat)
    requires Pattern(s, g, p, d, w, c, e)
    ensures IsMarker(s[p..w]) && IsTestId(g, s[w..e])
  {
    var m, t := s[p..w], s[w..e];
    assert AllIn(m, 0, d - p, Digits) && m[d - p] == ')' && AllIn(m, d - p + 1, |m|, Spaces);
    assert AllIn(t, 0, c - w, ClassName(g)) && t[c - w] == ':' && t[c - w + 1] == ':';
    assert AllIn(t, c - w + 2, |t|, MethodName(g));
  }

  /** The scan of `preg_match_all` from position `i`: matches in order, resuming after each. */
  function HitsFrom(s: string, i: nat, g: Charset): (hs: seq<Hit>)
    requires i <= |s|
    ensures forall k :: 0 <= k < |hs| ==> i <= hs[k].start < hs[k].name < hs[k].end <= |s|
    decreases |s| - i
  {
    if i == |s| then []
    else
      match MatchAt(s, i, g)
      case Some(h) => [h] + HitsFrom(s, h.end, g)
      case None => HitsFrom(s, i + 1, g)
  }

  /** Every hit is the match the pattern makes at the hit's start. */
  lemma {:induction false} HitsAreMatches(s: string, i: nat, g: Charset)
    requires i <= |s|
    ensures forall h :: h in HitsFrom(s, i, g) ==> h.start <= |s| && MatchAt(s, h.start, g) == Some(h)
    decreases |s| - i
  {
    if i < |s| {
      var m := MatchAt(s, i, g);
      if m.Some? {
        var rest := HitsFrom(s, m.value.end, g);
        HitsAreMatches(s, m.value.end, g);
        assert HitsFrom(s, i, g) == [m.value] + rest;
        forall h | h in [m.value] + rest
          ensures h.start <= |s| && MatchAt(s, h.start, g) == Some(h)
        {
          if h != m.value {
            assert h in rest;
          }
        }
      } else {
        HitsAreMatches(s, i + 1, g);
        assert HitsFrom(s, i, g) == HitsFrom(s, i + 1, g);
      }
    } else {
      assert HitsFrom(s, i, g) == [];
    }
  }

  /** Hits come in order of position and do not overlap. */
  lemma {:induction false} HitsAreOrdered(s: string, i: nat, g: Charset)
    requires i <= |s|
    ensures forall j, k :: 0 <= j < k < |HitsFrom(s, i, g)| ==> HitsFrom(s, i, g)[j].end <= HitsFrom(s, i, g)[k].start
    decreases |s| - i
  {
    if i < |s| {
      var m := MatchAt(s, i, g);
      if m.Some? {
        HitsAreOrdered(s, m.value.end, g);
        var rest := HitsFrom(s, m.value.end, g);
        var hs := [m.value] + rest;
        assert HitsFrom(s, i, g) == hs;
        forall j, k | 0 <= j < k < |hs|
          ensures hs[j].end <= hs[k].start
        {
          assert hs[k] == rest[k - 1];
          if 0 < j {
            assert hs[j] == rest[j - 1];
          }
        }
      } else {
        HitsAreOrdered(s, i + 1, g);
        assert HitsFrom(s, i, g) == HitsFrom(s, i + 1, g);
      }
    } else {
      assert HitsFrom(s, i, g) == [];
    }
  }

  /** Position `p` lies inside one of the reported matches. */
  ghost predicate Covered(hs: seq<Hit>, p: nat) {
    exists k :: 0 <= k < |hs| && hs[k].start <= p < hs[k].end
  }

  lemma CoveredCons(h: Hit, rest: seq<Hit>, p: nat)
    requires (h.start <= p < h.end) || Covered(rest, p)
    ensures Covered([h] + rest, p)
  {
    var hs := [h] + rest;
    if h.start <= p < h.end {
      assert hs[0] == h;
    } else {
      var k :| 0 <= k < |rest| && rest[k].start <= p < rest[k].end;
      assert hs[k + 1] == rest[k];
    }
  }

  /** Every position from `i` on where the pattern could start lies inside a hit of `hs`. */
  ghost predicate CoversFrom(s: string, i: nat, g: Charset, hs: seq<Hit>) {
    forall p | i <= p <= |s| && MatchAt(s, p, g).Some? :: Covered(hs, p)
  }

  lemma {:induction false} CoverAfterHit(s: string, i: nat, g: Charset)
    requires i < |s| && MatchAt(s, i, g).Some?
    ensures CoversFrom(s, i, g, HitsFrom(s, i, g))
    decreases |s| - i, 0
  {
    var h := MatchAt(s, i, g).value;
    HitsCoverEveryMatch(s, h.end, g);
    forall p | i <= p <= |s| && MatchAt(s, p, g).Some?
      ensures Covered(HitsFrom(s, i, g), p)
    {
      CoveredCons(h, HitsFrom(s, h.end, g), p);
    }
  }

  lemma {:induction false} CoverAfterSkip(s: string, i: nat, g: Charset)
    requires i < |s| && MatchAt(s, i, g).None?
    ensures CoversFrom(s, i, g, HitsFrom(s, i, g))
    decreases |s| - i, 0
  {
    HitsCoverEveryMatch(s, i + 1, g);
    assert HitsFrom(s, i, g) == HitsFrom(s, i + 1, g);
  }

  /**
   The scan is leftmost-first: every position from `i` on where the pattern could start
   is either the start of a reported match or lies inside one.
   */
  lemma {:induction false} HitsCoverEveryMatch(s: string, i: nat, g: Charset)
    requires i <= |s|
    ensures CoversFrom(s, i, g, HitsFrom(s, i, g))
    decreases |s| - i, 1
  {
    if i == |s| {
      assert MatchAt(s, i, g).None?;
    } else if MatchAt(s, i, g).Some? {
      CoverAfterHit(s, i, g);
    } else {
      CoverAfterSkip(s, i, g);
    }
  }

  /** The identifiers named by the hits `hs` of `s`. */
  function Names(s: string, hs: seq<Hit>): seq<string>
    requires forall k :: 0 <= k < |hs| ==> hs[k].name <= hs[k].end <= |s|
  {
    seq(|hs|, k requires 0 <= k < |hs| => s[hs[k].name..hs[k].end])
  }

  /** `LogParser::extractFailedTests`: the captured identifiers, in order, duplicates kept. */
  function ExtractFailedTests(log: string, g: Charset): seq<string> {
    Names(log, HitsFrom(log, 0, g))
  }

  function ShiftHit(h: Hit, n: nat): Hit {
    Hit(h.start + n, h.name + n, h.end + n)
  }

  function Shift(hs: seq<Hit>, n: nat): seq<Hit> {
    seq(|hs|, k requires 0 <= k < |hs| => ShiftHit(hs[k], n))
  }

  lemma {:induction false} RunEndShift(a: string, b: string, j: nat, k: CharClass)
    requires j <= |b|
    ensures RunEnd(a + b, |a| + j, k) == |a| + RunEnd(b, j, k)
    decreases |b| - j
  {
    if j < |b| {
      assert (a + b)[|a| + j] == b[j];
      if InClass(k, b[j]) {
        RunEndShift(a, b, j + 1, k);
      }
    }
  }

  function ShiftPos(o: Option<nat>, n: nat): Option<nat> {
    match o
    case None => None
    case Some(x) => Some(x + n)
  }

  lemma MarkerEndShift(a: string, b: string, j: nat)
    requires j <= |b|
    ensures MarkerEnd(a + b, |a| + j) == ShiftPos(MarkerEnd(b, j), |a|)
  {
    RunEndShift(a, b, j, Digits);
    var d := RunEnd(b, j, Digits);
    if d < |b| {
      assert (a + b)[|a| + d] == b[d];
      RunEndShift(a, b, d + 1, Spaces);
    }
  }

  lemma NameEndShift(a: string, b: string, w: nat, g: Charset)
    requires w <= |b|
    ensures NameEnd(a + b, |a| + w, g) == ShiftPos(NameEnd(b, w, g), |a|)
  {
    RunEndShift(a, b, w, ClassName(g));
    var c := RunEnd(b, w, ClassName(g));
    if c + 2 <= |b| {
      assert (a + b)[|a| + c] == b[c] && (a + b)[|a| + c + 1] == b[c + 1];
      RunEndShift(a, b, c + 2, MethodName(g));
    }
  }

  function ShiftMatch(o: Option<Hit>, n: nat): Option<Hit> {
    match o
    case None => None
    case Some(h) => Some(ShiftHit(h, n))
  }

  /** A match depends only on the text from its start on. */
  lemma MatchAtShift(a: string, b: string, j: nat, g: Charset)
    requires j <= |b|
    ensures MatchAt(a + b, |a| + j, g) == ShiftMatch(MatchAt(b, j, g), |a|)
  {
    MarkerEndShift(a, b, j);
    var m := MarkerEnd(b, j);
    if m.Some? {
      NameEndShift(a, b, m.value, g);
    }
  }

  lemma ShiftCons(h: Hit, rest: seq<Hit>, n: nat)
    ensures Shift([h] + rest, n) == [ShiftHit(h, n)] + Shift(rest, n)
  {
  }

  lemma {:induction false} ShiftAfterHit(a: string, b: string, j: nat, g: Charset)
    requires j < |b| && MatchAt(b, j, g).Some?
    ensures HitsFrom(a + b, |a| + j, g) == Shift(HitsFrom(b, j, g), |a|)
    decreases |b| - j, 0
  {
    var h := MatchAt(b, j, g).value;
    MatchAtShift(a, b, j, g);
    HitsFromShift(a, b, h.end, g);
    var rest := HitsFrom(b, h.end, g);
    assert HitsFrom(b, j, g) == [h] + rest;
    var h' := ShiftHit(h, |a|);
    assert MatchAt(a + b, |a| + j, g) == Some(h');
    assert HitsFrom(a + b, |a| + j, g) == [h'] + HitsFrom(a + b, h'.end, g);
    ShiftCons(h, rest, |a|);
  }

  lemma {:induction false} ShiftAfterSkip(a: string, b: string, j: nat, g: Charset)
    requires j < |b| && MatchAt(b, j, g).None?
    ensures HitsFrom(a + b, |a| + j, g) == Shift(HitsFrom(b, j, g), |a|)
    decreases |b| - j, 0
  {
    MatchAtShift(a, b, j, g);
    HitsFromShift(a, b, j + 1, g);
    assert HitsFrom(b, j, g) == HitsFrom(b, j + 1, g);
    assert HitsFrom(a + b, |a| + j, g) == HitsFrom(a + b, |a| + j + 1, g);
  }

  /** The scan from a position depends only on the text from that position on. */
  lemma {:induction false} HitsFromShift(a: string, b: string, j: nat, g: Charset)
    requires j <= |b|
    ensures HitsFrom(a + b, |a| + j, g) == Shift(HitsFrom(b, j, g), |a|)
    decreases |b| - j, 1
  {
    if j == |b| {
      assert |a + b| == |a| + j;
    } else if MatchAt(b, j, g).Some? {
      ShiftAfterHit(a, b, j, g);
    } else {
      ShiftAfterSkip(a, b, j, g);
    }
  }

  lemma NamesShift(a: string, b: string, hb: seq<Hit>)
    requires forall k :: 0 <= k < |hb| ==> hb[k].name <= hb[k].end <= |b|
    ensures Names(a + b, Shift(hb, |a|)) == Names(b, hb)
  {
    var ha := Shift(hb, |a|);
    var l, r := Names(a + b, ha), Names(b, hb);
    forall k | 0 <= k < |hb|
      ensures l[k] == r[k]
    {
      var x, y := hb[k].name, hb[k].end;
      assert ha[k] == ShiftHit(hb[k], |a|);
      assert (a + b)[|a| + x..|a| + y] == b[x..y];
    }
  }

  /** The identifiers found from position `i` on are those found in the suffix `s[i..]`. */
  lemma NamesFromSuffix(s: string, i: nat, g: Charset)
    requires i <= |s|
    ensures Names(s, HitsFrom(s, i, g)) == ExtractFailedTests(s[i..], g)
  {
    var a, b := s[..i], s[i..];
    assert s == a + b;
    HitsFromShift(a, b, 0, g);
    NamesShift(a, b, HitsFrom(b, 0, g));
  }

  /** After a match at the start, scanning resumes right after the identifier. */
  lemma ExtractAfterMatch(s: string, g: Charset)
    requires MatchAt(s, 0, g).Some?
    ensures var h := MatchAt(s, 0, g).value;
      ExtractFailedTests(s, g) == [s[h.name..h.end]] + ExtractFailedTests(s[h.end..], g)
  {
    var h := MatchAt(s, 0, g).value;
    var rest := HitsFrom(s, h.end, g);
    assert HitsFrom(s, 0, g) == [h] + rest;
    NamesCons(s, h, rest);
    NamesFromSuffix(s, h.end, g);
  }

  lemma NamesCons(s: string, h: Hit, rest: seq<Hit>)
    requires h.name <= h.end <= |s|
    requires forall k :: 0 <= k < |rest| ==> rest[k].name <= rest[k].end <= |s|
    ensures Names(s, [h] + rest) == [s[h.name..h.end]] + Names(s, rest)
  {
    var hs := [h] + rest;
    assert forall k :: 0 < k < |hs| ==> hs[k] == rest[k - 1];
  }

  /** Where no match starts, scanning moves on by one character. */
  lemma ExtractAfterSkip(s: string, g: Charset)
    requires 0 < |s| && MatchAt(s, 0, g).None?
    ensures ExtractFailedTests(s, g) == ExtractFailedTests(s[1..], g)
  {
    assert HitsFrom(s, 0, g) == HitsFrom(s, 1, g);
    NamesFromSuffix(s, 1, g);
  }

  /**
   A marker followed by a well-formed identifier that is not followed by another
   method-name character yields that identifier, whole, and scanning continues after it.
   */
  lemma ExtractsWhole(g: Charset, marker: string, id: string, tail: string)
    requires IsMarker(marker) && IsTestId(g, id)
    requires tail == [] || !MethodChar(g, tail[0])
    ensures ExtractFailedTests(marker + id + tail, g) == [id] + ExtractFailedTests(tail, g)
  {
    var s := marker + id + tail;
    var d: nat :| 0 < d && d + 1 < |marker| && AllIn(marker, 0, d, Digits) && marker[d] == ')'
      && AllIn(marker, d + 1, |marker|, Spaces);
    var c: nat :| 0 < c && c + 2 < |id| && AllIn(id, 0, c, ClassName(g)) && id[c] == ':' && id[c + 1] == ':'
      && AllIn(id, c + 2, |id|, MethodName(g));
    var w, e := |marker|, |marker| + |id|;
    assert s[w..e] == id;
    assert s[e..] == tail;
    assert Pattern(s, g, 0, d, w, w + c, e);
    MatchAtComplete(s, g, 0, d, w, w + c, e);
    ExtractAfterMatch(s, g);
  }

  /** Every extracted item has the identifier shape and follows a marker in the log. */
  lemma ExtractedShape(log: string, g: Charset)
    ensures var hs := HitsFrom(log, 0, g);
      forall k :: 0 <= k < |hs| ==> IsMarker(log[hs[k].start..hs[k].name]) && IsTestId(g, log[hs[k].name..hs[k].end])
  {
    var hs := HitsFrom(log, 0, g);
    HitsAreMatches(log, 0, g);
    forall k | 0 <= k < |hs|
      ensures IsMarker(log[hs[k].start..hs[k].name]) && IsTestId(g, log[hs[k].name..hs[k].end])
    {
      assert hs[k] in hs;
      MatchAtSound(log, hs[k].start, g);
      var d: nat, c: nat :| Pattern(log, g, hs[k].start, d, hs[k].name, c, hs[k].end);
      PatternParts(log, g, hs[k].start, d, hs[k].name, c, hs[k].end);
    }
  }

  /**
   `extractFailedTests` returns, in order, the identifiers of non-overlapping matches of
   the log; each follows a marker, has the identifier shape and is not cut short.
   */
  lemma ExtractedOccurrences(log: string, g: Charset)
    ensures var ids, hs := ExtractFailedTests(log, g), HitsFrom(log, 0, g);
      && |ids| == |hs|
      && (forall k :: 0 <= k < |ids| ==> ids[k] == log[hs[k].name..hs[k].end])
      && (forall k :: 0 <= k < |ids| ==> IsMarker(log[hs[k].start..hs[k].name]) && IsTestId(g, ids[k]))
      && (forall k :: 0 <= k < |ids| ==> hs[k].end == |log| || !MethodChar(g, log[hs[k].end]))
      && (forall j, k :: 0 <= j < k < |ids| ==> hs[j].end <= hs[k].start)
  {
    var hs := HitsFrom(log, 0, g);
    ExtractedShape(log, g);
    HitsAreMatches(log, 0, g);
    HitsAreOrdered(log, 0, g);
    forall k | 0 <= k < |hs|
      ensures hs[k].end == |log| || !MethodChar(g, log[hs[k].end])
    {
      assert hs[k] in hs;
      MatchAtSound(log, hs[k].start, g);
    }
  }

  /** Every result is an identifier: the scanner never returns anything else. */
  lemma ExtractedAreTestIds(log: string, g: Charset)
    ensures forall id :: id in ExtractFailedTests(log, g) ==> IsTestId(g, id)
  {
    ExtractedOccurrences(log, g);
  }

  /** Each match consumes its own `)`, so there are at most as many results as `)` characters. */
  lemma {:induction false} HitsAtMostParens(s: string, i: nat, g: Charset)
    requires i <= |s|
    ensures |HitsFrom(s, i, g)| <= multiset(s[i..])[')']
    decreases |s| - i
  {
    if i < |s| {
      if MatchAt(s, i, g).Some? {
        var h := MatchAt(s, i, g).value;
        HitsAtMostParens(s, h.end, g);
        ParenInsideMatch(s, i, g);
      } else {
        HitsAtMostParens(s, i + 1, g);
        assert s[i..] == [s[i]] + s[i + 1..];
      }
    }
  }

  lemma ParenInsideMatch(s: string, i: nat, g: Charset)
    requires i <= |s| && MatchAt(s, i, g).Some?
    ensures multiset(s[i..])[')'] >= 1 + multiset(s[MatchAt(s, i, g).value.end..])[')']
  {
    var h := MatchAt(s, i, g).value;
    MatchAtSound(s, i, g);
    var d: nat, c: nat :| Pattern(s, g, i, d, h.name, c, h.end);
    var front := s[i..h.end];
    assert s[i..] == front + s[h.end..];
    assert front[d - i] == ')';
  }

  lemma ExtractCountBound(log: string, g: Charset)
    ensures |ExtractFailedTests(log, g)| <= multiset(log)[')']
  {
    HitsAtMostParens(log, 0, g);
    assert log[0..] == log;
  }

  /** Every match contains a digit followed by `)`. */
  lemma MatchHasMarker(s: string, i: nat, g: Charset)
    requires i <= |s| && MatchAt(s, i, g).Some?
    ensures !NoMarker(s)
  {
    MatchAtSound(s, i, g);
    var h := MatchAt(s, i, g).value;
    var d: nat, c: nat :| Pattern(s, g, i, d, h.name, c, h.end);
    assert IsDigit(s[d - 1]) && s[d] == ')';
  }

  /** Text in which no digit is followed by `)` yields nothing. */
  lemma {:induction false} NoMarkerNoHits(s: string, i: nat, g: Charset)
    requires i <= |s| && NoMarker(s)
    ensures HitsFrom(s, i, g) == []
    decreases |s| - i
  {
    if i < |s| {
      if MatchAt(s, i, g).Some? {
        MatchHasMarker(s, i, g);
        assert false;
      }
      NoMarkerNoHits(s, i + 1, g);
    }
  }

  /** A match that starts at the front of `pre + rest` puts a marker in `pre` or runs digits to its end. */
  lemma MatchAtFrontHasMarker(pre: string, rest: string, g: Charset)
    requires 0 < |pre| && MatchAt(pre + rest, 0, g).Some?
    ensures !NoMarker(pre) || IsDigit(pre[|pre| - 1])
  {
    var s := pre + rest;
    MatchAtSound(s, 0, g);
    var h := MatchAt(s, 0, g).value;
    var d: nat, c: nat :| Pattern(s, g, 0, d, h.name, c, h.end);
    assert IsDigit(s[d - 1]) && s[d] == ')';
    if d < |pre| {
      assert s[d - 1] == pre[d - 1] && s[d] == pre[d];
    } else {
      assert InClass(Digits, s[|pre| - 1]);
    }
  }

  /**
   Text without markers that does not end in a digit can be dropped from the front of a log:
   no match starts inside it, so the result is that of the rest.
   */
  lemma {:induction false} ExtractAfterQuietPrefix(pre: string, rest: string, g: Charset)
    requires NoMarker(pre) && (pre == [] || !IsDigit(pre[|pre| - 1]))
    ensures ExtractFailedTests(pre + rest, g) == ExtractFailedTests(rest, g)
    decreases |pre|
  {
    if pre == [] {
      assert pre + rest == rest;
    } else {
      var s := pre + rest;
      if MatchAt(s, 0, g).Some? {
        MatchAtFrontHasMarker(pre, rest, g);
        assert false;
      }
      ExtractAfterSkip(s, g);
      assert s[1..] == pre[1..] + rest;
      ExtractAfterQuietPrefix(pre[1..], rest, g);
    }
  }

  lemma NoMarkerConcat(a: string, b: string)
    requires NoMarker(a) && NoMarker(b)
    requires a == [] || b == [] || !IsDigit(a[|a| - 1]) || b[0] != ')'
    ensures NoMarker(a + b)
  {
    var s := a + b;
    forall k | 0 <= k < |s| - 1
      ensures !(IsDigit(s[k]) && s[k + 1] == ')')
    {
      if k + 1 < |a| {
        assert s[k] == a[k] && s[k + 1] == a[k + 1];
      } else if k + 1 == |a| {
        assert s[k] == a[k] && s[k + 1] == b[0];
      } else {
        assert s[k] == b[k - |a|] && s[k + 1] == b[k + 1 - |a|];
      }
    }
  }

  /** Runs of one class concatenate. */
  lemma AllInJoin(a: string, b: string, k: CharClass)
    requires AllIn(a, 0, |a|, k) && AllIn(b, 0, |b|, k)
    ensures AllIn(a + b, 0, |a + b|, k)
  {
    var s := a + b;
    forall t | 0 <= t < |s|
      ensures InClass(k, s[t])
    {
      if t < |a| {
        assert s[t] == a[t];
      } else {
        assert s[t] == b[t - |a|];
      }
    }
  }

  /** A non-empty class run, `::` and a non-empty method run form a test identifier. */
  lemma TestIdFrom(g: Charset, cls: string, meth: string)
    requires 0 < |cls| && AllIn(cls, 0, |cls|, ClassName(g))
    requires 0 < |meth| && AllIn(meth, 0, |meth|, MethodName(g))
    ensures IsTestId(g, cls + "::" + meth)
  {
    var t := cls + "::" + meth;
    var c := |cls|;
    assert t[c] == ':' && t[c + 1] == ':';
    forall i | 0 <= i < c
      ensures InClass(ClassName(g), t[i])
    {
      assert t[i] == cls[i];
    }
    forall i | c + 2 <= i < |t|
      ensures InClass(MethodName(g), t[i])
    {
      assert t[i] == meth[i - c - 2];
    }
  }

  lemma NoMarkerNoTests(log: string, g: Charset)
    requires NoMarker(log)
    ensures ExtractFailedTests(log, g) == []
  {
    NoMarkerNoHits(log, 0, g);
  }

  /** Under the literal character classes an extracted identifier never contains a digit. */
  lemma AsWrittenHasNoDigits(log: string)
    ensures forall id, j :: id in ExtractFailedTests(log, AsWritten) && 0 <= j < |id| ==> !IsDigit(id[j])
  {
    ExtractedAreTestIds(log, AsWritten);
    forall id, j | id in ExtractFailedTests(log, AsWritten) && 0 <= j < |id|
      ensures !IsDigit(id[j])
    {
      var c: nat :| 0 < c && c + 2 < |id| && AllIn(id, 0, c, ClassName(AsWritten)) && id[c] == ':' && id[c + 1] == ':'
        && AllIn(id, c + 2, |id|, MethodName(AsWritten));
    }
  }
}
