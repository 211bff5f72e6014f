/**
 Line splitting and range replacement on text.

 Models `_split_keepends` and `_apply_replace_range_content` of
 runtime_core/comms_server.py. Lines keep their terminators, and the
 terminators are the ones Python's `str.splitlines` knows.
 */
module TextLines {
  import opened Results
  import opened Sequences

  const RANGE_CONFLICT := "range_conflict"

  predicate IsBreak(c: char) {
    c == '\n' || c == '\r' || c == '\U{0B}' || c == '\U{0C}'
    || c == '\U{1C}' || c == '\U{1D}' || c == '\U{1E}'
    || c == '\U{85}' || c == '\U{2028}' || c == '\U{2029}'
  }

  /** The length of the first line of `s`, terminator included; CR LF is one terminator. */
  function LineLength(s: string): (n: nat)
    requires s != ""
    ensures 1 <= n <= |s|
  {
    if s[0] == '\r' && |s| > 1 && s[1] == '\n' then 2
    else if IsBreak(s[0]) || |s| == 1 then 1
    else 1 + LineLength(s[1..])
  }

  function SplitKeepEnds(s: string): seq<string> {
    if s == "" then [] else [s[..LineLength(s)]] + SplitKeepEnds(s[LineLength(s)..])
  }

  function Join(lines: seq<string>): string {
    if lines == [] then "" else lines[0] + Join(lines[1..])
  }

  /** `_apply_replace_range_content`: lines `start..end` (1-based, inclusive) give way to `replacement`. */
  function ReplaceRange(text: string, start: int, end: int, replacement: string): Result<string, string> {
    var lines := SplitKeepEnds(text);
    if start < 1 || end < start || start > |lines| || end > |lines| then
      Failure(RANGE_CONFLICT)
    else
      Success(Join(lines[..start - 1] + SplitKeepEnds(replacement) + lines[end..]))
  }

  predicate ValidRange(text: string, start: int, end: int) {
    1 <= start <= end <= |SplitKeepEnds(text)|
  }

  /** The text before, inside and after a line range. */
  ghost function Before(text: string, start: int): string
    requires 1 <= start <= |SplitKeepEnds(text)|
  {
    Join(SplitKeepEnds(text)[..start - 1])
  }

  ghost function Inside(text: string, start: int, end: int): string
    requires ValidRange(text, start, end)
  {
    Join(SplitKeepEnds(text)[start - 1..end])
  }

  ghost function After(text: string, end: int): string
    requires 0 <= end <= |SplitKeepEnds(text)|
  {
    Join(SplitKeepEnds(text)[end..])
  }

  /** A CR that ends `a` meets an LF that starts `b`: gluing them merges two terminators into one. */
  predicate Seam(a: string, b: string) {
    a != "" && b != "" && a[|a| - 1] == '\r' && b[0] == '\n'
  }

  predicate Terminated(s: string) {
    s != "" && IsBreak(s[|s| - 1])
  }

  /** Gluing `a` and `b` neither continues a line of `a` nor merges terminators. */
  predicate Separate(a: string, b: string) {
    a == "" || b == "" || (Terminated(a) && !Seam(a, b))
  }

  // ---------------------------------------------------------------------
  // Splitting and joining
  // ---------------------------------------------------------------------

  lemma {:induction false} JoinAppends(a: seq<string>, b: seq<string>)
    ensures Join(a + b) == Join(a) + Join(b)
  {
    if a == [] {
      assert a + b == b;
    } else {
      assert (a + b)[1..] == a[1..] + b;
      JoinAppends(a[1..], b);
    }
  }

  /** Joining the kept-terminator lines gives back the text. */
  lemma {:induction false} JoinUndoesSplit(s: string)
    ensures Join(SplitKeepEnds(s)) == s
  {
    if s != "" {
      JoinUndoesSplit(s[LineLength(s)..]);
      assert SplitKeepEnds(s)[1..] == SplitKeepEnds(s[LineLength(s)..]);
    }
  }

  /** The first line of `a + b` is the first line of `a`, unless it runs into `b`. */
  lemma {:induction false} LineLengthOfConcat(a: string, b: string)
    requires a != ""
    requires LineLength(a) < |a| || Separate(a, b)
    ensures LineLength(a + b) == LineLength(a)
  {
    if b == "" {
      assert a + b == a;
    } else if |a| > 1 && !IsBreak(a[0]) {
      assert (a + b)[1..] == a[1..] + b;
      LineLengthOfConcat(a[1..], b);
    }
  }

  lemma ConcatCut<T>(a: seq<T>, b: seq<T>, n: nat)
    requires n <= |a|
    ensures (a + b)[..n] == a[..n] && (a + b)[n..] == a[n..] + b
  {
  }

  /** Cutting off the first line leaves the remaining text separate from what follows. */
  lemma RestIsSeparate(a: string, b: string, n: nat)
    requires n <= |a| && Separate(a, b)
    ensures Separate(a[n..], b)
  {
    assert a[n..] != "" ==> a[n..][|a[n..]| - 1] == a[|a| - 1];
  }

  /** The first line of `a` is still there when `b` follows. */
  lemma SplitStep(a: string, b: string)
    requires a != "" && Separate(a, b)
    ensures SplitKeepEnds(a + b) == [a[..LineLength(a)]] + SplitKeepEnds(a[LineLength(a)..] + b)
  {
    LineLengthOfConcat(a, b);
    ConcatCut(a, b, LineLength(a));
  }

  lemma {:induction false} SplitOfConcat(a: string, b: string)
    requires Separate(a, b)
    ensures SplitKeepEnds(a + b) == SplitKeepEnds(a) + SplitKeepEnds(b)
  {
    if a == "" {
      assert a + b == b;
    } else {
      var n := LineLength(a);
      SplitStep(a, b);
      RestIsSeparate(a, b, n);
      SplitOfConcat(a[n..], b);
      Associative([a[..n]], SplitKeepEnds(a[n..]), SplitKeepEnds(b));
    }
  }

  /** A line that has text after it ends in a terminator, and no CR LF is torn apart. */
  lemma {:induction false} FirstLineIsSeparate(s: string)
    requires s != ""
    ensures Separate(s[..LineLength(s)], s[LineLength(s)..])
    ensures LineLength(s[..LineLength(s)]) == LineLength(s)
  {
    var n := LineLength(s);
    if |s| > 1 && !IsBreak(s[0]) {
      FirstLineIsSeparate(s[1..]);
      assert s[..n][1..] == s[1..][..n - 1];
      assert s[n..] == s[1..][n - 1..];
    }
  }

  /** `i` cuts the lines of `s` into the lines of `a` and the lines of `b`. */
  ghost predicate CutsInto(s: string, i: nat, a: string, b: string) {
    && i <= |SplitKeepEnds(s)|
    && s == a + b && Separate(a, b)
    && SplitKeepEnds(a) == SplitKeepEnds(s)[..i]
    && SplitKeepEnds(b) == SplitKeepEnds(s)[i..]
  }

  /** Cutting the line list anywhere cuts the text at a clean boundary. */
  lemma {:induction false} SplitAt(s: string, i: nat)
    requires i <= |SplitKeepEnds(s)|
    ensures CutsInto(s, i, Join(SplitKeepEnds(s)[..i]), Join(SplitKeepEnds(s)[i..]))
  {
    if i == 0 {
      NothingCut(s, SplitKeepEnds(s));
    } else {
      assert s != "";
      hide CutsInto, Join, Separate, SplitKeepEnds, LineLength;
      var first, rest := s[..LineLength(s)], s[LineLength(s)..];
      var tail := SplitKeepEnds(rest);
      FirstLineApart(s, first, rest);
      SplitAt(rest, i - 1);
      SplitAtStep(s, first, rest, i, Join(tail[..i - 1]), Join(tail[i - 1..]));
      CutsOfList(s, SplitKeepEnds(s), first, tail, i);
    }
  }

  lemma FirstLineApart(s: string, first: string, rest: string)
    requires s != "" && first == s[..LineLength(s)] && rest == s[LineLength(s)..]
    ensures s == first + rest && first != "" && LineLength(first) == |first| && Separate(first, rest)
    ensures SplitKeepEnds(s) == [first] + SplitKeepEnds(rest)
  {
    FirstLineIsSeparate(s);
  }

  lemma NothingCut(s: string, lines: seq<string>)
    requires lines == SplitKeepEnds(s)
    ensures CutsInto(s, 0, Join(lines[..0]), Join(lines[0..]))
  {
    assert lines[0..] == lines && lines[..0] == [];
    JoinUndoesSplit(s);
  }

  lemma CutsOfList(s: string, lines: seq<string>, first: string, tail: seq<string>, i: nat)
    requires lines == [first] + tail && 1 <= i <= |tail| + 1
    requires CutsInto(s, i, first + Join(tail[..i - 1]), Join(tail[i - 1..]))
    ensures CutsInto(s, i, Join(lines[..i]), Join(lines[i..]))
  {
    hide CutsInto;
    ListCut(first, tail, i);
  }

  lemma SplitAtStep(s: string, first: string, rest: string, i: nat, a: string, b: string)
    requires first != "" && LineLength(first) == |first| && Separate(first, rest)
    requires i > 0 && CutsInto(rest, i - 1, a, b)
    requires s == first + rest && SplitKeepEnds(s) == [first] + SplitKeepEnds(rest)
    ensures CutsInto(s, i, first + a, b)
  {
    FirstPrefix(first, a, b);
    SplitOfConcat(first, a);
    Associative(first, a, b);
    ListCut(first, SplitKeepEnds(rest), i);
    assert SplitKeepEnds(first) == [first] by { assert first[..|first|] == first && first[|first|..] == ""; }
  }

  lemma ListCut(first: string, tail: seq<string>, i: nat)
    requires 1 <= i <= |tail| + 1
    ensures ([first] + tail)[..i] == [first] + tail[..i - 1]
    ensures ([first] + tail)[i..] == tail[i - 1..]
    ensures Join([first] + tail[..i - 1]) == first + Join(tail[..i - 1])
  {
    assert ([first] + tail[..i - 1])[1..] == tail[..i - 1];
  }

  /** A separate first line stays separate from what follows when that is cut once more. */
  lemma FirstPrefix(first: string, a: string, b: string)
    requires first != "" && Separate(first, a + b) && Separate(a, b)
    ensures Separate(first, a) && Separate(first + a, b)
  {
    assert a + b == "" || (a + b)[0] == if a == "" then b[0] else a[0];
    if a == "" {
      assert first + a == first;
    } else {
      assert (first + a)[|first + a| - 1] == a[|a| - 1];
    }
  }

  // ---------------------------------------------------------------------
  // Range replacement
  // ---------------------------------------------------------------------

  /** The three parts of a text around a line range, with their line lists. */
  lemma PartsOfRange(text: string, start: int, end: int)
    requires ValidRange(text, start, end)
    ensures var b, m, a := Before(text, start), Inside(text, start, end), After(text, end);
      && CutsInto(text, start - 1, b, m + a)
      && CutsInto(m + a, end - start + 1, m, a)
      && m != ""
  {
    hide CutsInto, Join;
    var lines, n, k := SplitKeepEnds(text), start - 1, end - start + 1;
    var rest := Join(lines[n..]);
    SplitAt(text, n);
    LinesAfterCut(text, n, Join(lines[..n]), rest);
    SplitAt(rest, k);
    RangeOfLines(lines, n, k);
    FirstPart(rest, k, Join(lines[n..n + k]), Join(lines[n + k..]));
  }

  lemma LinesAfterCut(s: string, i: nat, a: string, b: string)
    requires CutsInto(s, i, a, b)
    ensures SplitKeepEnds(b) == SplitKeepEnds(s)[i..]
  {
  }

  lemma RangeOfLines(lines: seq<string>, n: nat, k: nat)
    requires n + k <= |lines|
    ensures lines[n..][..k] == lines[n..n + k] && lines[n..][k..] == lines[n + k..]
  {
  }

  lemma FirstPart(s: string, k: nat, a: string, b: string)
    requires CutsInto(s, k, a, b)
    ensures s == a + b && (k > 0 ==> a != "")
  {
  }

  /** A replacement leaves all text outside the range unchanged and puts the new text in its place. */
  lemma ReplaceSplices(text: string, start: int, end: int, replacement: string)
    requires ValidRange(text, start, end)
    ensures text == Before(text, start) + Inside(text, start, end) + After(text, end)
    ensures ReplaceRange(text, start, end, replacement)
         == Success(Before(text, start) + replacement + After(text, end))
  {
    PartsOfRange(text, start, end);
    Associative(Before(text, start), Inside(text, start, end), After(text, end));
    var lines := SplitKeepEnds(text);
    JoinAppends(lines[..start - 1], SplitKeepEnds(replacement));
    JoinAppends(lines[..start - 1] + SplitKeepEnds(replacement), lines[end..]);
    JoinUndoesSplit(replacement);
  }

  /** When putting the removed text back over the new lines restores the original. */
  predicate Undoable(before: string, replacement: string, after: string) {
    && replacement != ""
    && (after == "" || Terminated(replacement))
    && !Seam(before, replacement)
    && !Seam(replacement, after)
  }

  /** If `a` runs into `b`, as many lines as `a` has reach beyond `a`. */
  lemma {:induction false} Overrun(a: string, b: string)
    requires !Separate(a, b)
    ensures |SplitKeepEnds(a)| <= |SplitKeepEnds(a + b)|
    ensures |Join(SplitKeepEnds(a + b)[..|SplitKeepEnds(a)|])| > |a|
  {
    var n := LineLength(a);
    if n < |a| {
      assert a[n..][|a[n..]| - 1] == a[|a| - 1];
      Overrun(a[n..], b);
      LineLengthOfConcat(a, b);
      ConcatCut(a, b, n);
      ListCut(a[..n], SplitKeepEnds(a[n..] + b), |SplitKeepEnds(a)|);
    } else {
      LastLineRunsOn(a, b);
      var c := a + b;
      assert SplitKeepEnds(a) == [a] by { assert a[..n] == a && a[n..] == ""; }
      ListCut(c[..LineLength(c)], SplitKeepEnds(c[LineLength(c)..]), 1);
    }
  }

  lemma {:induction false} LastLineRunsOn(a: string, b: string)
    requires !Separate(a, b) && LineLength(a) == |a|
    ensures LineLength(a + b) > |a|
  {
    if |a| > 1 && a != "\r\n" {
      assert (a + b)[1..] == a[1..] + b;
      LastLineRunsOn(a[1..], b);
    }
  }

  /**
   Putting the removed text back over the lines the replacement took restores the
   original exactly when the replacement is not empty, ends in a terminator or reaches
   the end of the text, and no CR LF pair forms where it meets its neighbours.
   */
  lemma {:induction false} UndoRestoresExactlyWhenUndoable(text: string, start: int, end: int, replacement: string)
    requires ValidRange(text, start, end)
    ensures ReplaceRange(text, start, end, replacement).Success?
    ensures var replaced := ReplaceRange(text, start, end, replacement).value;
      Restores(text, replaced, start - 1, |SplitKeepEnds(replacement)|, Inside(text, start, end))
      <==> Undoable(Before(text, start), replacement, After(text, end))
  {
    PartsOfRange(text, start, end);
    ReplaceSplices(text, start, end, replacement);
    var b, m, a := Before(text, start), Inside(text, start, end), After(text, end);
    Associative(b, replacement, a);
    if Undoable(b, replacement, a) {
      UndoWorks(text, b, m, a, replacement);
    } else if Seam(b, replacement) {
      UndoFailsAtStart(text, b, m, a, replacement);
    } else if replacement != "" {
      UndoFailsAtEnd(text, b, m, a, replacement);
    }
  }

  /** Replacing `k` lines of `replaced`, from the line after the first `n`, by `removed` gives `text`. */
  predicate Restores(text: string, replaced: string, n: nat, k: nat, removed: string) {
    ReplaceRange(replaced, n + 1, n + k, removed) == Success(text)
  }

  lemma UndoWorks(text: string, b: string, m: string, a: string, r: string)
    requires text == b + (m + a) && Separate(b, m + a) && m != "" && Undoable(b, r, a)
    ensures Restores(text, b + (r + a), |SplitKeepEnds(b)|, |SplitKeepEnds(r)|, m)
  {
    SplitOfConcat(r, a);
    SplitOfConcat(b, r + a);
    JoinUndoesSplit(a);
    JoinUndoesSplit(b);
    RestoredLines(text, b + (r + a), SplitKeepEnds(b), SplitKeepEnds(r), SplitKeepEnds(a), m);
  }

  lemma RestoredLines(text: string, glued: string, first: seq<string>, middle: seq<string>, last: seq<string>, m: string)
    requires SplitKeepEnds(glued) == first + (middle + last) && middle != [] && text == Join(first) + (m + Join(last))
    ensures Restores(text, glued, |first|, |middle|, m)
  {
    LinesReplaced(glued, first, middle, last, m);
    Associative(Join(first), m, Join(last));
  }

  lemma CutsOfConcat<T>(all: seq<T>, first: seq<T>, middle: seq<T>, last: seq<T>)
    requires all == first + (middle + last)
    ensures |first| + |middle| <= |all|
    ensures all[..|first|] == first && all[|first| + |middle|..] == last
  {
  }

  /** Replacing the middle group of lines keeps the other two groups. */
  lemma LinesReplaced(text: string, first: seq<string>, middle: seq<string>, last: seq<string>, m: string)
    requires SplitKeepEnds(text) == first + (middle + last) && middle != []
    ensures ReplaceRange(text, |first| + 1, |first| + |middle|, m) == Success(Join(first) + m + Join(last))
  {
    var lines := SplitKeepEnds(text);
    CutsOfConcat(lines, first, middle, last);
    SplicedAround(text, lines, |first|, |middle|, m, first, last);
  }

  lemma SplicedAround(text: string, lines: seq<string>, n: nat, k: nat, m: string, first: seq<string>, last: seq<string>)
    requires lines == SplitKeepEnds(text) && n + k <= |lines| && k >= 1
    requires lines[..n] == first && lines[n + k..] == last
    ensures ReplaceRange(text, n + 1, n + k, m) == Success(Join(first) + m + Join(last))
  {
    SplicedBetween(text, n + 1, n + k, m, Join(first), Join(last));
  }

  lemma SplicedBetween(text: string, start: int, end: int, m: string, b: string, a: string)
    requires ValidRange(text, start, end) && Before(text, start) == b && After(text, end) == a
    ensures ReplaceRange(text, start, end, m) == Success(b + m + a)
  {
    ReplaceSplices(text, start, end, m);
  }

  /** The text left by replacing `k` lines after the first `n` of `glued` with `m`. */
  ghost function Spliced(glued: string, n: nat, k: nat, m: string): string
    requires ValidRange(glued, n + 1, n + k)
  {
    Before(glued, n + 1) + m + After(glued, n + k)
  }

  lemma RestoresIsSplice(text: string, glued: string, n: nat, k: nat, m: string)
    ensures Restores(text, glued, n, k, m)
        <==> ValidRange(glued, n + 1, n + k) && Spliced(glued, n, k, m) == text
  {
    if ValidRange(glued, n + 1, n + k) {
      ReplaceSplices(glued, n + 1, n + k, m);
    }
  }

  /** The merged CR LF keeps its LF in front of the restored text. */
  lemma UndoFailsAtStart(text: string, b: string, m: string, a: string, r: string)
    requires text == b + (m + a) && Separate(b, m + a) && m != "" && Seam(b, r)
    ensures !Restores(text, b + (r + a), |SplitKeepEnds(b)|, |SplitKeepEnds(r)|, m)
  {
    var glued, n, k := b + (r + a), |SplitKeepEnds(b)|, |SplitKeepEnds(r)|;
    RestoresIsSplice(text, glued, n, k, m);
    if ValidRange(glued, n + 1, n + k) {
      SpliceKeepsOverrun(glued, b, m, a, r, n, k);
    }
  }

  lemma SpliceKeepsOverrun(glued: string, b: string, m: string, a: string, r: string, n: nat, k: nat)
    requires glued == b + (r + a) && Separate(b, m + a) && m != "" && Seam(b, r)
    requires n == |SplitKeepEnds(b)| && ValidRange(glued, n + 1, n + k)
    ensures Spliced(glued, n, k, m) != b + (m + a)
  {
    var before, inside, after := Before(glued, n + 1), Inside(glued, n + 1, n + k), After(glued, n + k);
    BeforeIsLonger(glued, b, r + a, n);
    ReplaceSplices(glued, n + 1, n + k, m);
    Associative(before, inside, after);
    TextsDifferAt(b, m, a, r, before, inside + after, after);
  }

  lemma BeforeIsLonger(glued: string, b: string, rest: string, n: nat)
    requires glued == b + rest && !Separate(b, rest) && n == |SplitKeepEnds(b)| && n < |SplitKeepEnds(glued)|
    ensures |Before(glued, n + 1)| > |b|
  {
    Overrun(b, rest);
  }

  lemma TextsDifferAt(b: string, m: string, a: string, r: string, b': string, rest: string, a': string)
    requires b + (r + a) == b' + rest && |b'| > |b|
    requires Separate(b, m + a) && m != "" && Seam(b, r)
    ensures b' + m + a' != b + (m + a)
  {
    assert (b + (r + a))[|b|] == r[0];
    assert (b' + rest)[|b|] == b'[|b|];
    assert (b' + m + a')[|b|] == b'[|b|];
    assert (b + (m + a))[|b|] == m[0];
  }

  /** The replaced lines reach into the text after the range, which is lost. */
  lemma UndoFailsAtEnd(text: string, b: string, m: string, a: string, r: string)
    requires text == b + (m + a) && Separate(b, m + a) && m != ""
    requires r != "" && !Seam(b, r) && !Separate(r, a)
    ensures !Restores(text, b + (r + a), |SplitKeepEnds(b)|, |SplitKeepEnds(r)|, m)
  {
    var glued, n, k := b + (r + a), |SplitKeepEnds(b)|, |SplitKeepEnds(r)|;
    RestoresIsSplice(text, glued, n, k, m);
    if ValidRange(glued, n + 1, n + k) {
      SpliceLosesText(glued, b, m, a, r, n, k);
    }
  }

  lemma SpliceLosesText(glued: string, b: string, m: string, a: string, r: string, n: nat, k: nat)
    requires glued == b + (r + a) && Separate(b, r + a) && !Separate(r, a)
    requires n == |SplitKeepEnds(b)| && k == |SplitKeepEnds(r)| && ValidRange(glued, n + 1, n + k)
    ensures |Spliced(glued, n, k, m)| < |b| + |m| + |a|
  {
    SplitOfConcat(b, r + a);
    Overrun(r, a);
    JoinUndoesSplit(b);
    GroupsOf(glued, SplitKeepEnds(b), SplitKeepEnds(r + a), n, k);
    PartsTooLong(glued, n, k, m, |b|, |r|, |a|);
  }

  lemma PartsTooLong(glued: string, n: nat, k: nat, m: string, b: nat, r: nat, a: nat)
    requires ValidRange(glued, n + 1, n + k) && |glued| == b + r + a
    requires |Before(glued, n + 1)| == b && |Inside(glued, n + 1, n + k)| > r
    ensures |Spliced(glued, n, k, m)| < b + |m| + a
  {
    PartLengths(glued, n + 1, n + k);
  }

  lemma PartLengths(text: string, start: int, end: int)
    requires ValidRange(text, start, end)
    ensures |text| == |Before(text, start)| + |Inside(text, start, end)| + |After(text, end)|
  {
    ReplaceSplices(text, start, end, "");
  }

  lemma GroupsOf(glued: string, first: seq<string>, tail: seq<string>, n: nat, k: nat)
    requires SplitKeepEnds(glued) == first + tail && n == |first| && 1 <= k <= |tail|
    ensures Before(glued, n + 1) == Join(first)
    ensures Inside(glued, n + 1, n + k) == Join(tail[..k])
  {
    assert SplitKeepEnds(glued)[..n] == first;
    assert SplitKeepEnds(glued)[n..n + k] == tail[..k];
  }
}
