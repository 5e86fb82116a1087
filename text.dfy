/** The text routines of Go's standard library that the weight-file parser
    relies on: `unicode.IsSpace`, `strings.TrimSpace`, `strings.Fields`,
    `bufio.ScanLines` and `strconv.ParseUint(s, 10, 8)`. */
module Text {
  import opened Wrappers
  import opened Net

  /** `unicode.IsSpace`: the Latin-1 spaces and the other characters with
      the Unicode White_Space property. */
  predicate IsSpace(c: char) {
    ('\U{09}' <= c <= '\U{0D}') || c == ' ' || c == '\U{85}' || c == '\U{A0}' ||
    c == '\U{1680}' || ('\U{2000}' <= c <= '\U{200A}') || c == '\U{2028}' ||
    c == '\U{2029}' || c == '\U{202F}' || c == '\U{205F}' || c == '\U{3000}'
  }

  predicate NoSpace(s: string) {
    forall k :: 0 <= k < |s| ==> !IsSpace(s[k])
  }

  predicate AllSpace(s: string) {
    forall k :: 0 <= k < |s| ==> IsSpace(s[k])
  }

  /** The first index at or after `i` whose character is a space exactly
      when `space` is false: the end of a run of spaces (`space`) or of a
      word (`!space`). */
  function Span(s: string, i: nat, space: bool): (j: nat)
    requires i <= |s|
    ensures i <= j <= |s|
    ensures forall k :: i <= k < j ==> IsSpace(s[k]) == space
    ensures j < |s| ==> IsSpace(s[j]) != space
    decreases |s| - i
  {
    if i == |s| || IsSpace(s[i]) != space then i else Span(s, i + 1, space)
  }

  /** The last index `e`, with `lo <= e <= hi`, such that `s[lo..e]` ends in
      a non-space (or `lo` when all of `s[lo..hi]` is space). */
  function SpanBack(s: string, lo: nat, hi: nat): (e: nat)
    requires lo <= hi <= |s|
    ensures lo <= e <= hi
    ensures forall k :: e <= k < hi ==> IsSpace(s[k])
    ensures e > lo ==> !IsSpace(s[e - 1])
    decreases hi - lo
  {
    if hi == lo || !IsSpace(s[hi - 1]) then hi else SpanBack(s, lo, hi - 1)
  }

  /** `strings.TrimSpace`: `s` without its leading and trailing spaces. */
  function TrimSpace(s: string): (r: string)
    ensures exists i, e | 0 <= i <= e <= |s| :: r == s[i..e] && Stripped(s, i, e)
    ensures r != [] ==> !IsSpace(r[0]) && !IsSpace(r[|r| - 1])
  {
    var i := Span(s, 0, true);
    var e := SpanBack(s, i, |s|);
    assert Stripped(s, i, e);
    s[i..e]
  }

  /** Everything of `s` outside `s[i..e]` is space. */
  predicate Stripped(s: string, i: nat, e: nat)
    requires i <= e <= |s|
  {
    (forall k :: 0 <= k < i ==> IsSpace(s[k])) && (forall k :: e <= k < |s| ==> IsSpace(s[k]))
  }

  /** `strings.Fields`: the maximal runs of non-space characters of `s`, in
      order. */
  function Fields(s: string): (r: seq<string>)
    ensures forall n :: 0 <= n < |r| ==> r[n] != [] && NoSpace(r[n])
    ensures r == [] <==> AllSpace(s)
    decreases |s|
  {
    var i := Span(s, 0, true);
    if i == |s| then []
    else
      var j := Span(s, i, false);
      assert s[i] == s[i..j][0];
      [s[i..j]] + Fields(s[j..])
  }

  /** `TrimSpace` gives back exactly the word between the spaces it
      strips. */
  lemma TrimSpaceOfPadded(a: string, w: string, b: string)
    requires AllSpace(a) && AllSpace(b)
    requires w != [] && !IsSpace(w[0]) && !IsSpace(w[|w| - 1])
    ensures TrimSpace(a + w + b) == w
  {
    var s := a + w + b;
    assert s[|a|] == w[0] && s[|a| + |w| - 1] == w[|w| - 1];
    assert Span(s, 0, true) == |a|;
    assert SpanBack(s, |a|, |s|) == |a| + |w|;
    assert s[|a|..|a| + |w|] == w;
  }

  /** A single word is its own only field. */
  lemma FieldsOfWord(w: string)
    requires w != [] && NoSpace(w)
    ensures Fields(w) == [w]
  {
    assert Span(w, 0, true) == 0;
    assert Span(w, 0, false) == |w|;
    assert w[0..|w|] == w && w[|w|..] == [];
  }

  /** Leading spaces before a single word are dropped. */
  lemma FieldsAfterSpace(sep: string, b: string)
    requires AllSpace(sep) && b != [] && NoSpace(b)
    ensures Fields(sep + b) == [b]
  {
    var t := sep + b;
    assert t[|sep|] == b[0];
    assert Span(t, 0, true) == |sep|;
    assert Span(t, |sep|, false) == |t|;
    assert t[|sep|..|t|] == b && t[|t|..] == [];
  }

  /** Two words joined by spaces are split back into the two words. */
  lemma FieldsOfPair(a: string, sep: string, b: string)
    requires a != [] && NoSpace(a) && b != [] && NoSpace(b)
    requires sep != [] && AllSpace(sep)
    ensures Fields(a + sep + b) == [a, b]
  {
    var s := a + sep + b;
    assert s[0] == a[0] && s[|a|] == sep[0];
    assert forall k :: 0 <= k < |a| ==> s[k] == a[k];
    assert Span(s, 0, true) == 0;
    assert Span(s, 0, false) == |a|;
    assert s[0..|a|] == a;
    assert s[|a|..] == sep + b;
    FieldsAfterSpace(sep, b);
  }

  /** The words `ws` with the runs of spaces `seps` around and between them:
      `seps[0] + ws[0] + seps[1] + ... + ws[n - 1] + seps[n]`. */
  function Interleave(seps: seq<string>, ws: seq<string>): string
    requires |seps| == |ws| + 1
    decreases |ws|
  {
    if ws == [] then seps[0] else seps[0] + ws[0] + Interleave(seps[1..], ws[1..])
  }

  /** Runs of spaces, every one but the first and the last non-empty. */
  predicate Spacing(seps: seq<string>) {
    (forall n :: 0 <= n < |seps| ==> AllSpace(seps[n])) &&
    (forall n :: 0 < n < |seps| - 1 ==> seps[n] != [])
  }

  /** Non-empty words without spaces. */
  predicate Words(ws: seq<string>) {
    forall n :: 0 <= n < |ws| ==> ws[n] != [] && NoSpace(ws[n])
  }

  /** The runs of spaces of `s` around its fields: the leading run, one
      run between each two fields, and the trailing run. */
  function Separators(s: string): (r: seq<string>)
    ensures |r| == |Fields(s)| + 1 && Spacing(r)
    ensures s != [] && IsSpace(s[0]) ==> r[0] != []
    decreases |s|
  {
    var i := Span(s, 0, true);
    if i == |s| then
      assert s[..i] == s;
      [s]
    else
      var j := Span(s, i, false);
      var r := Separators(s[j..]);
      if |r| > 1 then
        RestOfFields(s, i, j);
        SpacingCons(s[..i], r);
        [s[..i]] + r
      else
        SpacingCons(s[..i], r);
        [s[..i]] + r
  }

  /** After the first field of `s`, ending at `j`, more fields follow
      only after a space. */
  lemma RestOfFields(s: string, i: nat, j: nat)
    requires i == Span(s, 0, true) && i < |s| && j == Span(s, i, false)
    requires Fields(s[j..]) != []
    ensures s[j..] != [] && IsSpace(s[j..][0])
  {
    assert !AllSpace(s[j..]);
  }

  lemma SpacingCons(a: string, r: seq<string>)
    requires AllSpace(a) && Spacing(r) && r != [] && (|r| > 1 ==> r[0] != [])
    ensures Spacing([a] + r)
  {
    var t := [a] + r;
    assert forall n :: 0 < n < |t| ==> t[n] == r[n - 1];
  }

  lemma SpacingTail(seps: seq<string>)
    requires Spacing(seps) && |seps| > 1
    ensures Spacing(seps[1..])
  {
  }

  /** Every text is its separators interleaved with its fields: the
      fields are the maximal runs of non-space characters, in order. */
  lemma {:induction false} FieldsRoundTrip(s: string)
    ensures Interleave(Separators(s), Fields(s)) == s
    decreases |s|
  {
    var i := Span(s, 0, true);
    if i == |s| {
      assert s[..i] == s;
    } else {
      var j := Span(s, i, false);
      var t := s[j..];
      var seps, ws := Separators(s), Fields(s);
      assert seps[0] == s[..i] && seps[1..] == Separators(t);
      assert ws[0] == s[i..j] && ws[1..] == Fields(t);
      FieldsRoundTrip(t);
      JoinThree(s, i, j);
    }
  }

  lemma JoinThree(s: string, i: nat, j: nat)
    requires i <= j <= |s|
    ensures s[..i] + s[i..j] + s[j..] == s
  {
  }

  /** Conversely, words interleaved with runs of spaces, the inner runs
      non-empty, have exactly those words as their fields. */
  lemma {:induction false} FieldsOfInterleave(seps: seq<string>, ws: seq<string>)
    requires |seps| == |ws| + 1 && Spacing(seps) && Words(ws)
    ensures Fields(Interleave(seps, ws)) == ws
    decreases |ws|
  {
    if ws == [] {
      assert AllSpace(seps[0]);
    } else {
      var rest := Interleave(seps[1..], ws[1..]);
      SpacingTail(seps);
      assert Words(ws[1..]);
      FieldsOfInterleave(seps[1..], ws[1..]);
      InterleaveStart(seps[1..], ws[1..]);
      assert AllSpace(seps[0]) && ws[0] != [] && NoSpace(ws[0]);
      SplitWord(seps[0], ws[0], rest);
    }
  }

  /** Interleaved text starts with a space, unless it is empty. */
  lemma InterleaveStart(seps: seq<string>, ws: seq<string>)
    requires |seps| == |ws| + 1 && Spacing(seps)
    requires ws != [] ==> seps[0] != []
    ensures var s := Interleave(seps, ws); s == [] || IsSpace(s[0])
  {
    assert AllSpace(seps[0]);
    if ws != [] {
      assert Interleave(seps, ws)[0] == seps[0][0];
    }
  }

  /** The first field of `a + w + rest`, for spaces `a`, a word `w` and a
      `rest` that is empty or starts with a space, is `w`. */
  lemma SplitWord(a: string, w: string, rest: string)
    requires AllSpace(a) && w != [] && NoSpace(w) && (rest == [] || IsSpace(rest[0]))
    ensures Fields(a + w + rest) == [w] + Fields(rest)
  {
    var s := a + w + rest;
    assert s[|a|] == w[0];
    assert forall k :: 0 <= k < |a| ==> s[k] == a[k];
    assert Span(s, 0, true) == |a|;
    assert forall k :: |a| <= k < |a| + |w| ==> s[k] == w[k - |a|];
    assert rest != [] ==> s[|a| + |w|] == rest[0];
    assert Span(s, |a|, false) == |a| + |w|;
    assert s[|a|..|a| + |w|] == w && s[|a| + |w|..] == rest;
  }

  /** The index of the first newline at or after `i`, or `|s|` if there is
      none. */
  function LineEnd(s: string, i: nat): (j: nat)
    requires i <= |s|
    ensures i <= j <= |s|
    ensures j < |s| ==> s[j] == '\n'
    ensures forall k :: i <= k < j ==> s[k] != '\n'
    decreases |s| - i
  {
    if i == |s| || s[i] == '\n' then i else LineEnd(s, i + 1)
  }

  function DropCR(l: string): string {
    if |l| > 0 && l[|l| - 1] == '\r' then l[..|l| - 1] else l
  }

  /** `bufio.ScanLines`: the lines of `s`, split at each newline, each with
      one trailing carriage return removed; a final empty segment after the
      last newline is not a line. */
  function ScanLines(s: string): (r: seq<string>)
    ensures forall n :: 0 <= n < |r| ==> '\n' !in r[n]
    decreases |s|
  {
    if s == [] then []
    else
      var j := LineEnd(s, 0);
      assert '\n' !in s[..j];
      [DropCR(s[..j])] + (if j < |s| then ScanLines(s[j + 1..]) else [])
  }

  /** A line without a newline or a trailing carriage return, followed by
      a newline, is scanned as itself. */
  lemma ScanLinesCons(l: string, rest: string)
    requires '\n' !in l && (l == [] || l[|l| - 1] != '\r')
    ensures ScanLines(l + "\n" + rest) == [l] + ScanLines(rest)
  {
    var s := l + "\n" + rest;
    LineEndOf(l, rest);
    assert s[..|l|] == l && s[|l| + 1..] == rest;
    assert DropCR(l) == l;
  }

  /** The first newline of `l + "\n" + rest` is the one after `l`. */
  lemma LineEndOf(l: string, rest: string)
    requires '\n' !in l
    ensures LineEnd(l + "\n" + rest, 0) == |l|
  {
    var s := l + "\n" + rest;
    assert s[|l|] == '\n';
    assert forall k :: 0 <= k < |l| ==> s[k] == l[k];
  }

  /** A newline-free line followed by a newline is scanned as that line
      with one trailing carriage return dropped. */
  lemma ScanLinesStep(l: string, rest: string)
    requires '\n' !in l
    ensures ScanLines(l + "\n" + rest) == [DropCR(l)] + ScanLines(rest)
  {
    var s := l + "\n" + rest;
    LineEndOf(l, rest);
    assert s[..|l|] == l && s[|l| + 1..] == rest;
  }

  /** The lines `ls`, each followed by a newline. */
  function Unlines(ls: seq<string>): string {
    if ls == [] then [] else ls[0] + "\n" + Unlines(ls[1..])
  }

  /** Lines without a newline. */
  predicate Lines(ls: seq<string>) {
    forall n :: 0 <= n < |ls| ==> '\n' !in ls[n]
  }

  /** `DropCR` applied to each line of `ls`. */
  function DropEachCR(ls: seq<string>): (r: seq<string>)
    ensures |r| == |ls| && forall n :: 0 <= n < |ls| ==> r[n] == DropCR(ls[n])
  {
    seq(|ls|, n requires 0 <= n < |ls| => DropCR(ls[n]))
  }

  /** The scan of every text, given as newline-ended lines `ls` and an
      unended `last` segment: one line per ended line, and one more for a
      non-empty last segment, each with one trailing carriage return
      dropped. */
  lemma {:induction false} ScanLinesOfUnlines(ls: seq<string>, last: string)
    requires Lines(ls) && '\n' !in last
    ensures ScanLines(Unlines(ls) + last) == DropEachCR(ls) + (if last == [] then [] else [DropCR(last)])
    decreases |ls|
  {
    if ls == [] {
      assert Unlines(ls) + last == last;
      if last != [] {
        ScanLastLine(last);
      }
    } else {
      var rest := Unlines(ls[1..]) + last;
      UnlinesStep(ls, last);
      assert '\n' !in ls[0] && Lines(ls[1..]);
      ScanLinesStep(ls[0], rest);
      ScanLinesOfUnlines(ls[1..], last);
      DropEachCRCons(ls);
    }
  }

  lemma UnlinesStep(ls: seq<string>, last: string)
    requires ls != []
    ensures Unlines(ls) + last == ls[0] + "\n" + (Unlines(ls[1..]) + last)
  {
  }

  /** An unended, non-empty last segment is one line. */
  lemma ScanLastLine(last: string)
    requires last != [] && '\n' !in last
    ensures ScanLines(last) == [DropCR(last)]
  {
    assert LineEnd(last, 0) == |last|;
    assert last[..|last|] == last;
  }

  lemma DropEachCRCons(ls: seq<string>)
    requires ls != []
    ensures DropEachCR(ls) == [DropCR(ls[0])] + DropEachCR(ls[1..])
  {
  }

  /** `s` cut at each of its newlines, which are dropped; every segment but
      the last was ended by a newline. */
  function Segments(s: string): (r: seq<string>)
    ensures |r| >= 1 && Lines(r)
    decreases |s|
  {
    var j := LineEnd(s, 0);
    assert '\n' !in s[..j];
    if j < |s| then
      var u := Segments(s[j + 1..]);
      LinesCons(s[..j], u);
      [s[..j]] + u
    else
      assert s[..j] == s;
      [s]
  }

  lemma LinesCons(l: string, u: seq<string>)
    requires '\n' !in l && Lines(u)
    ensures Lines([l] + u)
  {
    var r := [l] + u;
    assert forall n :: 0 < n < |r| ==> r[n] == u[n - 1];
  }

  /** Every text is its segments joined back with the newlines. */
  lemma {:induction false} SegmentsRoundTrip(s: string)
    ensures var r := Segments(s); Unlines(r[..|r| - 1]) + r[|r| - 1] == s
    decreases |s|
  {
    var j := LineEnd(s, 0);
    if j < |s| {
      var t := s[j + 1..];
      SegmentsCons(s, j);
      SegmentsRoundTrip(t);
      UnlinesCons(s[..j], Segments(t));
      CutAt(s, j);
    }
  }

  lemma SegmentsCons(s: string, j: nat)
    requires j == LineEnd(s, 0) && j < |s|
    ensures Segments(s) == [s[..j]] + Segments(s[j + 1..])
  {
  }

  lemma CutAt(s: string, j: nat)
    requires j < |s| && s[j] == '\n'
    ensures s == s[..j] + "\n" + s[j + 1..]
  {
  }

  lemma UnlinesCons(l: string, u: seq<string>)
    requires u != []
    ensures var r := [l] + u;
            Unlines(r[..|r| - 1]) + r[|r| - 1] == l + "\n" + (Unlines(u[..|u| - 1]) + u[|u| - 1])
  {
    var r := [l] + u;
    assert r[..|r| - 1] == [l] + u[..|u| - 1];
    assert r[|r| - 1] == u[|u| - 1];
  }

  /** `bufio.ScanLines` on every text: the newline-ended segments, each
      with one trailing carriage return dropped, then the unended last
      segment when it is not empty. */
  lemma ScanLinesBySegments(s: string)
    ensures var r := Segments(s);
            ScanLines(s) == DropEachCR(r[..|r| - 1]) + (if r[|r| - 1] == [] then [] else [DropCR(r[|r| - 1])])
  {
    var r := Segments(s);
    SegmentsRoundTrip(s);
    assert Lines(r[..|r| - 1]) && '\n' !in r[|r| - 1];
    ScanLinesOfUnlines(r[..|r| - 1], r[|r| - 1]);
  }

  predicate IsDigit(c: char) {
    '0' <= c <= '9'
  }

  predicate AllDigits(s: string) {
    forall k :: 0 <= k < |s| ==> IsDigit(s[k])
  }

  /** The value of a string of decimal digits, read as an unbounded
      number. */
  function DecimalValue(s: string): nat
    requires AllDigits(s)
  {
    if s == [] then 0
    else DecimalValue(s[..|s| - 1]) * 10 + (s[|s| - 1] as int - '0' as int)
  }

  lemma {:induction false} DecimalValueGrows(s: string, i: nat)
    requires AllDigits(s) && i <= |s|
    ensures DecimalValue(s[..i]) <= DecimalValue(s)
    decreases |s| - i
  {
    if i < |s| {
      DecimalValueGrows(s, i + 1);
      assert s[..i + 1][..i] == s[..i];
    } else {
      assert s[..i] == s;
    }
  }

  /** The digit loop of `strconv.ParseUint` for base 10 and bit size 8,
      started at index `i` with the value `n` of the digits before it. A
      non-digit is a syntax error, a value past 255 a range error; both are
      `None`. */
  function ParseDigits(s: string, i: nat, n: nat): (r: Option<uint8>)
    requires i <= |s| && AllDigits(s[..i]) && n == DecimalValue(s[..i]) && n <= 255
    ensures r.Some? <==> AllDigits(s) && DecimalValue(s) <= 255
    ensures r.Some? ==> r.value as int == DecimalValue(s)
    decreases |s| - i
  {
    if i == |s| then
      assert s[..i] == s;
      Some(n as uint8)
    else if !IsDigit(s[i]) then
      None
    else
      assert s[..i + 1][..i] == s[..i];
      var n1 := n * 10 + (s[i] as int - '0' as int);
      if n1 > 255 then
        assert !AllDigits(s) || DecimalValue(s) > 255 by {
          if AllDigits(s) { DecimalValueGrows(s, i + 1); }
        }
        None
      else
        ParseDigits(s, i + 1, n1)
  }

  /** `strconv.ParseUint(s, 10, 8)`: succeeds exactly on a non-empty string
      of decimal digits (no sign, no underscore, leading zeros allowed)
      whose value is at most 255; `0` is accepted. */
  function ParseUint8(s: string): (r: Option<uint8>)
    ensures r.Some? <==> |s| > 0 && AllDigits(s) && DecimalValue(s) <= 255
    ensures r.Some? ==> r.value as int == DecimalValue(s)
  {
    if s == [] then None else ParseDigits(s, 0, 0)
  }
}
