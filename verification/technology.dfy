/** The backend's technology-string splitter, `parseTechnology`, and the two
    pieces of `java.lang.String` it rests on: `trim()` and `split(regex)` for
    the two regular expressions it uses. */
module Technology {
  import opened Wrappers

  /** `String.trim()` removes every character at or below U+0020. */
  predicate IsBlank(c: char) {
    c <= ' '
  }

  predicate AllBlank(s: string) {
    forall i :: 0 <= i < |s| ==> IsBlank(s[i])
  }

  function TrimStart(s: string): (r: string)
    ensures |r| <= |s| && r == s[|s| - |r|..]
    ensures r == [] || !IsBlank(r[0])
    ensures forall i :: 0 <= i < |s| - |r| ==> IsBlank(s[i])
  {
    if s != [] && IsBlank(s[0]) then
      var r := TrimStart(s[1..]);
      assert s[1..][|s| - 1 - |r|..] == s[|s| - |r|..];
      assert forall i :: 1 <= i < |s| - |r| ==> s[i] == s[1..][i - 1];
      r
    else s
  }

  function TrimEnd(s: string): (r: string)
    ensures |r| <= |s| && r == s[..|r|]
    ensures r == [] || !IsBlank(r[|r| - 1])
    ensures forall i :: |r| <= i < |s| ==> IsBlank(s[i])
  {
    if s != [] && IsBlank(s[|s| - 1]) then
      var r := TrimEnd(s[..|s| - 1]);
      assert s[..|s| - 1][..|r|] == s[..|r|];
      assert forall i :: |r| <= i < |s| - 1 ==> s[i] == s[..|s| - 1][i];
      r
    else s
  }

  /** `String.trim()`: the input without its blank prefix and suffix. */
  function Trim(s: string): (r: string)
    ensures |r| <= |s|
    ensures r == [] <==> AllBlank(s)
    ensures r != [] ==> !IsBlank(r[0]) && !IsBlank(r[|r| - 1])
    ensures (s == [] || (!IsBlank(s[0]) && !IsBlank(s[|s| - 1]))) ==> r == s
    ensures StripsBlanks(s, r)
  {
    var t := TrimStart(s);
    var r := TrimEnd(t);
    TrimWindow(s, t, r);
    r
  }

  /** `r` is `s` without some blank prefix and some blank suffix. */
  predicate StripsBlanks(s: string, r: string) {
    exists a :: 0 <= a <= |s| - |r| && r == s[a..a + |r|] && AllBlank(s[..a]) && AllBlank(s[a + |r|..])
  }

  /** A prefix `r` of a suffix `t` of `s`, both cut at blanks only, is a
      window of `s` with a blank run on each side; it is empty exactly when
      `s` is all blank. */
  lemma TrimWindow(s: string, t: string, r: string)
    requires |t| <= |s| && t == s[|s| - |t|..]
    requires t == [] || !IsBlank(t[0])
    requires forall i :: 0 <= i < |s| - |t| ==> IsBlank(s[i])
    requires |r| <= |t| && r == t[..|r|]
    requires forall i :: |r| <= i < |t| ==> IsBlank(t[i])
    ensures StripsBlanks(s, r)
    ensures r == [] <==> AllBlank(s)
    ensures r != [] ==> !IsBlank(r[0])
  {
    var a := |s| - |t|;
    assert t[..|r|] == s[a..a + |r|];
    var tail := s[a + |r|..];
    forall i | 0 <= i < |tail|
      ensures IsBlank(tail[i])
    {
      assert tail[i] == t[|r| + i];
    }
    assert r == s[a..a + |r|] && AllBlank(s[..a]) && AllBlank(tail);
    assert r != [] ==> r[0] == t[0];
    assert forall i :: a <= i < |s| ==> s[i] == t[i - a];
  }

  /** Trimming twice is trimming once. */
  lemma TrimIdempotent(s: string)
    ensures Trim(Trim(s)) == Trim(s)
  {
  }

  /** The two regular expressions `parseTechnology` splits on. */
  datatype Separator =
    | Conjunction  // " (A|and) ": the word "A" or "and" between two spaces
    | Comma        // ",\s*": in a Java literal `\s` is a space, so a comma and any run of spaces

  /** The text a single match of `sep` covers, stated without reference to
      matching. */
  predicate IsDelimiter(sep: Separator, d: string) {
    match sep
    case Conjunction => d == " A " || d == " and "
    case Comma => |d| >= 1 && d[0] == ',' && forall k :: 1 <= k < |d| ==> d[k] == ' '
  }

  /** The number of spaces starting at position `i`. */
  function SpaceRun(s: string, i: nat): (n: nat)
    requires i <= |s|
    ensures i + n <= |s|
    decreases |s| - i
  {
    if i < |s| && s[i] == ' ' then 1 + SpaceRun(s, i + 1) else 0
  }

  /** `SpaceRun` counts spaces only, and as many as there are. */
  lemma {:induction false} SpaceRunIsSpaces(s: string, i: nat)
    requires i <= |s|
    ensures forall k :: i <= k < i + SpaceRun(s, i) ==> s[k] == ' '
    ensures i + SpaceRun(s, i) == |s| || s[i + SpaceRun(s, i)] != ' '
    decreases |s| - i
  {
    if i < |s| && s[i] == ' ' {
      SpaceRunIsSpaces(s, i + 1);
    }
  }

  /** The length of the match of `sep` at position `i`, or 0 when there is
      none. The two alternatives of `Conjunction` differ in their second
      character, so at most one applies; the space run after a comma is
      matched greedily. */
  function MatchLength(sep: Separator, s: string, i: nat): (n: nat)
    requires i <= |s|
    ensures i + n <= |s|
  {
    match sep
    case Conjunction =>
      if i + 3 <= |s| && s[i] == ' ' && s[i + 1] == 'A' && s[i + 2] == ' ' then 3
      else if i + 5 <= |s| && s[i] == ' ' && s[i + 1] == 'a' && s[i + 2] == 'n' && s[i + 3] == 'd' && s[i + 4] == ' ' then 5
      else 0
    case Comma =>
      if i < |s| && s[i] == ',' then 1 + SpaceRun(s, i + 1) else 0
  }

  /** Every match covers exactly a delimiter text. */
  lemma MatchIsDelimiter(sep: Separator, s: string, i: nat)
    requires i <= |s| && MatchLength(sep, s, i) > 0
    ensures IsDelimiter(sep, s[i..i + MatchLength(sep, s, i)])
  {
    var n := MatchLength(sep, s, i);
    if sep == Comma {
      SpaceRunIsSpaces(s, i + 1);
    } else {
      if n == 3 {
        assert s[i..i + n] == " A ";
      } else {
        assert s[i..i + n] == " and ";
      }
    }
  }

  /** No match of `sep` starts anywhere in `s`. */
  predicate NoMatchIn(sep: Separator, s: string) {
    forall k :: 0 <= k < |s| ==> MatchLength(sep, s, k) == 0
  }

  /** Only a comma starts a `Comma` match. */
  lemma CommaFreeIffNoMatch(s: string)
    ensures NoMatchIn(Comma, s) <==> ',' !in s
  {
    if ',' in s {
      var k :| 0 <= k < |s| && s[k] == ',';
      assert MatchLength(Comma, s, k) > 0;
    }
  }

  /** Neither " A " nor " and " occurs in `s`, stated without reference to
      matching. */
  predicate ConjunctionFree(s: string) {
    forall k :: 0 <= k < |s| ==> !OccursAt(s, k, " A ") && !OccursAt(s, k, " and ")
  }

  /** `w` occurs in `s` starting at position `k`. */
  predicate OccursAt(s: string, k: nat, w: string) {
    k + |w| <= |s| && s[k..k + |w|] == w
  }

  /** The `Conjunction` matcher finds " A " and " and " wherever they occur,
      and nothing else. */
  lemma ConjunctionFreeIffNoMatch(s: string)
    ensures NoMatchIn(Conjunction, s) <==> ConjunctionFree(s)
  {
    if !ConjunctionFree(s) {
      var k :| 0 <= k < |s| && (OccursAt(s, k, " A ") || OccursAt(s, k, " and "));
      ConjunctionTextMatches(s, k);
    }
    if !NoMatchIn(Conjunction, s) {
      var k :| 0 <= k < |s| && MatchLength(Conjunction, s, k) != 0;
      ConjunctionMatchText(s, k);
    }
  }

  /** " A " and " and " are `Conjunction` matches wherever they occur. */
  lemma ConjunctionTextMatches(s: string, k: nat)
    requires OccursAt(s, k, " A ") || OccursAt(s, k, " and ")
    ensures k < |s| && MatchLength(Conjunction, s, k) > 0
  {
    if OccursAt(s, k, " A ") {
      var w := s[k..k + 3];
      assert s[k] == w[0] && s[k + 1] == w[1] && s[k + 2] == w[2];
    } else {
      var w := s[k..k + 5];
      assert s[k] == w[0] && s[k + 1] == w[1] && s[k + 2] == w[2] && s[k + 3] == w[3] && s[k + 4] == w[4];
    }
  }

  /** A `Conjunction` match starts with " A " or " and ". */
  lemma ConjunctionMatchText(s: string, k: nat)
    requires k <= |s| && MatchLength(Conjunction, s, k) > 0
    ensures OccursAt(s, k, " A ") || OccursAt(s, k, " and ")
  {
    if MatchLength(Conjunction, s, k) == 3 {
      assert s[k..k + 3] == " A ";
    } else {
      assert s[k..k + 5] == " and ";
    }
  }

  /** A match inside a slice is a match in the whole string. */
  lemma MatchInSlice(sep: Separator, s: string, a: nat, b: nat, k: nat)
    requires a <= b <= |s| && k < b - a
    requires MatchLength(sep, s[a..b], k) > 0
    ensures MatchLength(sep, s, a + k) > 0
  {
  }

  /** A slice in which no match of the whole string starts holds no match. */
  lemma SliceFree(sep: Separator, s: string, a: nat, b: nat)
    requires a <= b <= |s|
    requires forall k :: a <= k < b ==> MatchLength(sep, s, k) == 0
    ensures NoMatchIn(sep, s[a..b])
  {
    forall k | 0 <= k < b - a
      ensures MatchLength(sep, s[a..b], k) == 0
    {
      if MatchLength(sep, s[a..b], k) > 0 {
        MatchInSlice(sep, s, a, b, k);
      }
    }
  }

  /** The match length of `sep` at every position of `s`: what
      `Matcher.find` consults while it scans. */
  function MatchTable(sep: Separator, s: string): (t: seq<nat>)
    ensures |t| == |s|
    ensures forall k :: 0 <= k < |s| ==> t[k] == MatchLength(sep, s, k)
  {
    seq(|s|, k requires 0 <= k < |s| => MatchLength(sep, s, k))
  }

  /** A table of match lengths for `s`: no match runs past the end. */
  predicate IsTable(s: string, t: seq<nat>) {
    |t| == |s| && forall k :: 0 <= k < |t| ==> k + t[k] <= |s|
  }

  lemma MatchTableIsTable(sep: Separator, s: string)
    ensures IsTable(s, MatchTable(sep, s))
  {
  }

  /** One piece of a split together with the delimiter text that followed it. */
  datatype Segment = Segment(piece: string, delimiter: string)

  /** Where `Matcher.find` resumes: the first position at or after `i` at
      which a match starts, or the end of the text. */
  function NextMatch(t: seq<nat>, i: nat): (m: nat)
    requires i <= |t|
    ensures i <= m <= |t|
    ensures forall k :: i <= k < m ==> t[k] == 0
    ensures m < |t| ==> t[m] > 0
    decreases |t| - i
  {
    if i == |t| || t[i] > 0 then i else NextMatch(t, i + 1)
  }

  /** The leftmost-first scan of `Pattern.split` from position `start`:
      every segment but the last ends at a match, the last runs to the end. */
  function Scan(s: string, t: seq<nat>, start: nat): (segs: seq<Segment>)
    requires IsTable(s, t) && start <= |s|
    ensures |segs| >= 1 && segs[|segs| - 1].delimiter == []
    decreases |s| - start
  {
    var m := NextMatch(t, start);
    if m == |s| then [Segment(s[start..], [])]
    else [Segment(s[start..m], s[m..m + t[m]])] + Scan(s, t, m + t[m])
  }

  /** Every piece followed by its delimiter, in order. */
  function Rebuild(segs: seq<Segment>): string {
    if segs == [] then [] else segs[0].piece + segs[0].delimiter + Rebuild(segs[1..])
  }

  lemma RebuildCons(seg: Segment, rest: seq<Segment>)
    ensures Rebuild([seg] + rest) == seg.piece + seg.delimiter + Rebuild(rest)
  {
    assert ([seg] + rest)[1..] == rest;
  }

  lemma SliceSplit(s: string, a: nat, b: nat, c: nat)
    requires a <= b <= c <= |s|
    ensures s[a..] == s[a..b] + s[b..c] + s[c..]
  {
  }

  /** Nothing is lost by splitting: pieces and delimiters, in order, spell the
      scanned text. */
  lemma {:induction false} ScanRebuilds(s: string, t: seq<nat>, start: nat)
    requires IsTable(s, t) && start <= |s|
    ensures Rebuild(Scan(s, t, start)) == s[start..]
    decreases |s| - start
  {
    var m := NextMatch(t, start);
    if m == |s| {
      RebuildCons(Segment(s[start..], []), []);
    } else {
      var next := m + t[m];
      var seg, rest := Segment(s[start..m], s[m..next]), Scan(s, t, next);
      assert Scan(s, t, start) == [seg] + rest;
      ScanRebuilds(s, t, next);
      RebuildCons(seg, rest);
      SliceSplit(s, start, m, next);
    }
  }

  /** Every segment but the last ends at a delimiter text. */
  predicate DelimitedBy(sep: Separator, segs: seq<Segment>) {
    forall j :: 0 <= j < |segs| - 1 ==> IsDelimiter(sep, segs[j].delimiter)
  }

  lemma DelimitedByCons(sep: Separator, seg: Segment, rest: seq<Segment>)
    requires IsDelimiter(sep, seg.delimiter) && DelimitedBy(sep, rest)
    ensures DelimitedBy(sep, [seg] + rest)
  {
    var segs := [seg] + rest;
    forall j | 0 <= j < |segs| - 1
      ensures IsDelimiter(sep, segs[j].delimiter)
    {
      if j > 0 {
        assert segs[j] == rest[j - 1];
      }
    }
  }

  /** Every match the table records covers a delimiter text of `sep`. */
  predicate TableDelimits(sep: Separator, s: string, t: seq<nat>) {
    IsTable(s, t) && forall k :: 0 <= k < |t| && t[k] > 0 ==> IsDelimiter(sep, s[k..k + t[k]])
  }

  lemma MatchTableDelimits(sep: Separator, s: string)
    ensures TableDelimits(sep, s, MatchTable(sep, s))
  {
    var t := MatchTable(sep, s);
    forall k | 0 <= k < |t| && t[k] > 0
      ensures IsDelimiter(sep, s[k..k + t[k]])
    {
      MatchIsDelimiter(sep, s, k);
    }
  }

  /** Scanning with such a table records a genuine delimiter text after
      every piece but the last. */
  lemma {:induction false} ScanDelimiters(sep: Separator, s: string, t: seq<nat>, start: nat)
    requires TableDelimits(sep, s, t) && start <= |s|
    ensures DelimitedBy(sep, Scan(s, t, start))
    decreases |s| - start
  {
    var m := NextMatch(t, start);
    if m < |s| {
      var next := m + t[m];
      var seg, rest := Segment(s[start..m], s[m..next]), Scan(s, t, next);
      assert Scan(s, t, start) == [seg] + rest;
      ScanDelimiters(sep, s, t, next);
      DelimitedByCons(sep, seg, rest);
    }
  }

  /** No piece holds a match of `sep`. */
  predicate PiecesFree(sep: Separator, segs: seq<Segment>) {
    forall j :: 0 <= j < |segs| ==> NoMatchIn(sep, segs[j].piece)
  }

  lemma PiecesFreeCons(sep: Separator, seg: Segment, rest: seq<Segment>)
    requires NoMatchIn(sep, seg.piece) && PiecesFree(sep, rest)
    ensures PiecesFree(sep, [seg] + rest)
  {
    var segs := [seg] + rest;
    forall j | 0 <= j < |segs|
      ensures NoMatchIn(sep, segs[j].piece)
    {
      if j > 0 {
        assert segs[j] == rest[j - 1];
      }
    }
  }

  /** Every piece lies in a stretch of `s` where no match of `sep` starts. */
  lemma {:induction false} ScanPiecesSeparatorFree(sep: Separator, s: string, start: nat)
    requires start <= |s|
    ensures IsTable(s, MatchTable(sep, s))
    ensures PiecesFree(sep, Scan(s, MatchTable(sep, s), start))
    decreases |s| - start
  {
    var t := MatchTable(sep, s);
    var m := NextMatch(t, start);
    SliceFree(sep, s, start, m);
    if m < |s| {
      var next := m + t[m];
      var seg, rest := Segment(s[start..m], s[m..next]), Scan(s, t, next);
      assert Scan(s, t, start) == [seg] + rest;
      ScanPiecesSeparatorFree(sep, s, next);
      PiecesFreeCons(sep, seg, rest);
    } else {
      assert s[start..] == s[start..m];
    }
  }

  /** Every piece is a slice of `s`, so a text free of one separator splits
      into pieces free of it. */
  lemma {:induction false} ScanKeepsOtherFree(other: Separator, s: string, t: seq<nat>, start: nat)
    requires IsTable(s, t) && start <= |s|
    requires NoMatchIn(other, s)
    ensures PiecesFree(other, Scan(s, t, start))
    decreases |s| - start
  {
    var m := NextMatch(t, start);
    SliceFree(other, s, start, m);
    if m < |s| {
      var next := m + t[m];
      var seg, rest := Segment(s[start..m], s[m..next]), Scan(s, t, next);
      assert Scan(s, t, start) == [seg] + rest;
      ScanKeepsOtherFree(other, s, t, next);
      PiecesFreeCons(other, seg, rest);
    } else {
      assert s[start..] == s[start..m];
    }
  }

  /** A scan yields a single segment exactly when no match follows its start,
      and that segment is then the rest of the text. */
  lemma SingleSegment(s: string, t: seq<nat>, start: nat)
    requires IsTable(s, t) && start <= |s|
    ensures |Scan(s, t, start)| == 1 <==> NextMatch(t, start) == |s|
    ensures |Scan(s, t, start)| == 1 ==> Scan(s, t, start) == [Segment(s[start..], [])]
  {
  }

  function Pieces(segs: seq<Segment>): (r: seq<string>)
    ensures |r| == |segs| && forall j :: 0 <= j < |segs| ==> r[j] == segs[j].piece
  {
    seq(|segs|, j requires 0 <= j < |segs| => segs[j].piece)
  }

  /** `split` with limit 0 removes trailing empty strings. */
  function DropTrailingEmpty(xs: seq<string>): (r: seq<string>)
    ensures |r| <= |xs| && r == xs[..|r|]
    ensures r == [] || r[|r| - 1] != []
    ensures forall k :: |r| <= k < |xs| ==> xs[k] == []
  {
    if xs != [] && xs[|xs| - 1] == [] then DropTrailingEmpty(xs[..|xs| - 1]) else xs
  }

  /** The scan `Split` performs. */
  function SplitScan(sep: Separator, s: string): (segs: seq<Segment>)
    ensures |segs| >= 1
  {
    MatchTableIsTable(sep, s);
    Scan(s, MatchTable(sep, s), 0)
  }

  /** What `Split` needs of the scan of a whole string. */
  lemma SplitScanFacts(sep: Separator, s: string)
    ensures var segs := SplitScan(sep, s);
            && PiecesFree(sep, segs)
            && (|segs| == 1 ==> segs[0].piece == s)
            && (NoMatchIn(sep, s) ==> |segs| == 1)
  {
    MatchTableIsTable(sep, s);
    ScanPiecesSeparatorFree(sep, s, 0);
    SingleSegment(s, MatchTable(sep, s), 0);
  }

  /** `String.split(regex)`: the input alone when nothing matches, otherwise
      the pieces between matches with trailing empty pieces removed. */
  function Split(sep: Separator, s: string): seq<string> {
    var segs := SplitScan(sep, s);
    if |segs| == 1 then [s] else DropTrailingEmpty(Pieces(segs))
  }

  /** No piece `split` returns contains a match of the separator, and a text
      with no match splits into itself alone. */
  lemma SplitSeparatorFree(sep: Separator, s: string)
    ensures forall j :: 0 <= j < |Split(sep, s)| ==> NoMatchIn(sep, Split(sep, s)[j])
    ensures NoMatchIn(sep, s) ==> Split(sep, s) == [s]
  {
    SplitScanFacts(sep, s);
  }

  /** The scan behind `Split` loses nothing: its pieces and the delimiters
      it cut out, in order, spell the input, and every delimiter but the last
      is a match of the separator (the last is empty, by `Scan`'s contract). */
  lemma SplitScanRebuilds(sep: Separator, s: string)
    ensures Rebuild(SplitScan(sep, s)) == s
    ensures DelimitedBy(sep, SplitScan(sep, s))
  {
    MatchTableIsTable(sep, s);
    ScanRebuilds(s, MatchTable(sep, s), 0);
    assert s[0..] == s;
    MatchTableDelimits(sep, s);
    ScanDelimiters(sep, s, MatchTable(sep, s), 0);
  }

  /** A text that does not start with a space. */
  predicate NoLeadingSpace(p: string) {
    p == [] || p[0] != ' '
  }

  /** Every match the table records runs up to a non-space or the end: the
      space run after a comma is consumed whole. */
  predicate TableGreedy(s: string, t: seq<nat>) {
    IsTable(s, t) && forall k :: 0 <= k < |t| && t[k] > 0 ==> k + t[k] == |s| || s[k + t[k]] != ' '
  }

  lemma CommaTableGreedy(s: string)
    ensures TableGreedy(s, MatchTable(Comma, s))
  {
    var t := MatchTable(Comma, s);
    forall k | 0 <= k < |t| && t[k] > 0
      ensures k + t[k] == |s| || s[k + t[k]] != ' '
    {
      SpaceRunIsSpaces(s, k + 1);
    }
  }

  /** With such a table no piece after the first starts with a space. */
  lemma {:induction false} ScanPiecesNoLeadingSpace(s: string, t: seq<nat>, start: nat)
    requires TableGreedy(s, t) && start <= |s|
    ensures forall j :: 0 < j < |Scan(s, t, start)| ==> NoLeadingSpace(Scan(s, t, start)[j].piece)
    decreases |s| - start
  {
    var m := NextMatch(t, start);
    if m < |s| {
      var next := m + t[m];
      var seg, rest := Segment(s[start..m], s[m..next]), Scan(s, t, next);
      assert Scan(s, t, start) == [seg] + rest;
      ScanPiecesNoLeadingSpace(s, t, next);
      var m' := NextMatch(t, next);
      assert rest[0].piece == s[next..m'];
      assert NoLeadingSpace(rest[0].piece);
      forall j | 0 < j < |Scan(s, t, start)|
        ensures NoLeadingSpace(Scan(s, t, start)[j].piece)
      {
        assert Scan(s, t, start)[j] == rest[j - 1];
      }
    }
  }

  /** `split(",\s*")` removes the spaces after each comma: no piece after the
      first starts with a space. */
  lemma SplitCommaStripsSpaces(s: string)
    ensures forall j :: 0 < j < |Split(Comma, s)| ==> NoLeadingSpace(Split(Comma, s)[j])
  {
    MatchTableIsTable(Comma, s);
    CommaTableGreedy(s);
    var segs := SplitScan(Comma, s);
    ScanPiecesNoLeadingSpace(s, MatchTable(Comma, s), 0);
    var r := Split(Comma, s);
    if |segs| > 1 {
      forall j | 0 < j < |r|
        ensures NoLeadingSpace(r[j])
      {
        assert r[j] == Pieces(segs)[j] == segs[j].piece;
      }
    }
  }

  /** The pieces `Split` keeps are the scan's pieces minus a run of empty
      ones at the end, and when there was a match the last kept piece is
      non-empty. */
  lemma SplitIsScanPrefix(sep: Separator, s: string)
    ensures var pieces, r := Pieces(SplitScan(sep, s)), Split(sep, s);
            |r| <= |pieces| && r == pieces[..|r|] &&
            (forall k :: |r| <= k < |pieces| ==> pieces[k] == []) &&
            (|pieces| > 1 ==> r == [] || r[|r| - 1] != [])
  {
    SplitScanFacts(sep, s);
  }

  /** Splitting cannot create a match of another separator. */
  lemma SplitKeepsOtherFree(sep: Separator, other: Separator, s: string)
    requires NoMatchIn(other, s)
    ensures forall j :: 0 <= j < |Split(sep, s)| ==> NoMatchIn(other, Split(sep, s)[j])
  {
    MatchTableIsTable(sep, s);
    var segs := SplitScan(sep, s);
    ScanKeepsOtherFree(other, s, MatchTable(sep, s), 0);
    SplitScanFacts(sep, s);
    var r := Split(sep, s);
    forall j | 0 <= j < |r|
      ensures NoMatchIn(other, r[j])
    {
      if |segs| > 1 {
        assert r[j] == Pieces(segs)[j] == segs[j].piece;
      }
    }
  }

  /** No string of `xs` contains a match of `sep`. */
  predicate AllFree(sep: Separator, xs: seq<string>) {
    forall j :: 0 <= j < |xs| ==> NoMatchIn(sep, xs[j])
  }

  lemma AllFreeAppend(sep: Separator, xs: seq<string>, ys: seq<string>)
    requires AllFree(sep, xs) && AllFree(sep, ys)
    ensures AllFree(sep, xs + ys)
  {
    var zs := xs + ys;
    forall j | 0 <= j < |zs|
      ensures NoMatchIn(sep, zs[j])
    {
      if j >= |xs| {
        assert zs[j] == ys[j - |xs|];
      }
    }
  }

  /** The lists of `xss`, one after the other: `addAll` in a loop. */
  function Flatten(xss: seq<seq<string>>): seq<string> {
    if xss == [] then [] else xss[0] + Flatten(xss[1..])
  }

  lemma {:induction false} FlattenAppend(xss: seq<seq<string>>, yss: seq<seq<string>>)
    ensures Flatten(xss + yss) == Flatten(xss) + Flatten(yss)
  {
    if xss == [] {
      assert xss + yss == yss;
    } else {
      assert (xss + yss)[0] == xss[0] && (xss + yss)[1..] == xss[1..] + yss;
      FlattenAppend(xss[1..], yss);
    }
  }

  /** Flattening lists free of a separator gives a list free of it. */
  lemma {:induction false} FlattenFree(sep: Separator, xss: seq<seq<string>>)
    requires forall i :: 0 <= i < |xss| ==> AllFree(sep, xss[i])
    ensures AllFree(sep, Flatten(xss))
  {
    if xss != [] {
      FlattenFree(sep, xss[1..]);
      AllFreeAppend(sep, xss[0], Flatten(xss[1..]));
    }
  }

  /** `f` applied to each string, in order. */
  function MapStrings(f: string -> seq<string>, xs: seq<string>): (r: seq<seq<string>>)
    ensures |r| == |xs| && forall i :: 0 <= i < |xs| ==> r[i] == f(xs[i])
  {
    seq(|xs|, i requires 0 <= i < |xs| => f(xs[i]))
  }

  lemma MapStringsAppend(f: string -> seq<string>, xs: seq<string>, ys: seq<string>)
    ensures MapStrings(f, xs + ys) == MapStrings(f, xs) + MapStrings(f, ys)
  {
  }

  lemma MapStringsCons(f: string -> seq<string>, x: string, xs: seq<string>)
    ensures MapStrings(f, [x] + xs) == [f(x)] + MapStrings(f, xs)
  {
  }

  /** `split` on `sep` as a function value. */
  function Splitter(sep: Separator): string -> seq<string> {
    s => Split(sep, s)
  }

  /** The split of each string, in order. */
  function SplitEach(sep: Separator, xs: seq<string>): (r: seq<seq<string>>)
    ensures |r| == |xs| && forall i :: 0 <= i < |xs| ==> r[i] == Split(sep, xs[i])
  {
    MapStrings(Splitter(sep), xs)
  }

  /** Splits every string in turn, keeping the pieces of each in place. */
  function SplitAll(sep: Separator, xs: seq<string>): seq<string> {
    Flatten(SplitEach(sep, xs))
  }

  /** No piece of `SplitAll` contains a match of the separator. */
  lemma SplitAllSeparatorFree(sep: Separator, xs: seq<string>)
    ensures AllFree(sep, SplitAll(sep, xs))
  {
    var xss := SplitEach(sep, xs);
    forall i | 0 <= i < |xss|
      ensures AllFree(sep, xss[i])
    {
      SplitSeparatorFree(sep, xs[i]);
    }
    FlattenFree(sep, xss);
  }

  /** Splitting every string cannot create a match of another separator. */
  lemma SplitAllKeepsOtherFree(sep: Separator, other: Separator, xs: seq<string>)
    requires AllFree(other, xs)
    ensures AllFree(other, SplitAll(sep, xs))
  {
    var xss := SplitEach(sep, xs);
    forall i | 0 <= i < |xss|
      ensures AllFree(other, xss[i])
    {
      SplitKeepsOtherFree(sep, other, xs[i]);
    }
    FlattenFree(other, xss);
  }

  /** Splitting a concatenation is concatenating the splits. */
  lemma SplitAllAppend(sep: Separator, xs: seq<string>, ys: seq<string>)
    ensures SplitAll(sep, xs + ys) == SplitAll(sep, xs) + SplitAll(sep, ys)
  {
    MapStringsAppend(Splitter(sep), xs, ys);
    FlattenAppend(SplitEach(sep, xs), SplitEach(sep, ys));
  }

  lemma SplitAllCons(sep: Separator, x: string, xs: seq<string>)
    ensures SplitAll(sep, [x] + xs) == Split(sep, x) + SplitAll(sep, xs)
  {
    MapStringsCons(Splitter(sep), x, xs);
    var xss := SplitEach(sep, [x] + xs);
    assert xss[1..] == SplitEach(sep, xs);
  }

  /** `parseTechnology`: absent for absent or blank input; otherwise the
      trimmed input split on " A " / " and ", each piece split on commas. */
  function ParseTechnology(technology: Option<string>): (r: Option<seq<string>>)
    ensures r.None? <==> technology.None? || AllBlank(technology.value)
    ensures r.Some? ==> forall j :: 0 <= j < |r.value| ==>
              ',' !in r.value[j] && ConjunctionFree(r.value[j])
    ensures r.Some? && ConjunctionFree(Trim(technology.value)) && ',' !in Trim(technology.value) ==>
              r.value == [Trim(technology.value)]
  {
    if technology.None? then None
    else
      var trimmed := Trim(technology.value);
      if trimmed == [] then None
      else
        var conjuncts := Split(Conjunction, trimmed);
        var r := SplitAll(Comma, conjuncts);
        SplitSeparatorFree(Conjunction, trimmed);
        SplitAllSeparatorFree(Comma, conjuncts);
        SplitAllKeepsOtherFree(Comma, Conjunction, conjuncts);
        assert forall j :: 0 <= j < |r| ==> ',' !in r[j] && ConjunctionFree(r[j]) by {
          forall j | 0 <= j < |r|
            ensures ',' !in r[j] && ConjunctionFree(r[j])
          {
            CommaFreeIffNoMatch(r[j]);
            ConjunctionFreeIffNoMatch(r[j]);
          }
        }
        ConjunctionFreeIffNoMatch(trimmed);
        assert ConjunctionFree(trimmed) && ',' !in trimmed ==> r == [trimmed] by {
          if NoMatchIn(Conjunction, trimmed) && ',' !in trimmed {
            CommaFreeIffNoMatch(trimmed);
            SplitSeparatorFree(Comma, trimmed);
            SplitAllCons(Comma, trimmed, []);
            assert [trimmed] + [] == [trimmed];
          }
        }
        Some(r)
  }

  /** In a flattened map, the image of each string sits between the images
      of the strings before it and those after it. */
  lemma FlatMapInPlace(f: string -> seq<string>, xs: seq<string>, j: nat)
    requires j < |xs|
    ensures Flatten(MapStrings(f, xs)) ==
              Flatten(MapStrings(f, xs[..j])) + f(xs[j]) + Flatten(MapStrings(f, xs[j + 1..]))
  {
    var front, rest := xs[..j], xs[j..];
    assert xs == front + rest;
    MapStringsAppend(f, front, rest);
    FlattenAppend(MapStrings(f, front), MapStrings(f, rest));
    assert rest == [xs[j]] + xs[j + 1..];
    MapStringsCons(f, xs[j], xs[j + 1..]);
    var tail := MapStrings(f, xs[j + 1..]);
    assert ([f(xs[j])] + tail)[0] == f(xs[j]) && ([f(xs[j])] + tail)[1..] == tail;
  }

  /** Each string's pieces sit in place, between the pieces of the strings
      before it and those after it. */
  lemma SplitAllInPlace(sep: Separator, xs: seq<string>, j: nat)
    requires j < |xs|
    ensures SplitAll(sep, xs) == SplitAll(sep, xs[..j]) + Split(sep, xs[j]) + SplitAll(sep, xs[j + 1..])
  {
    FlatMapInPlace(Splitter(sep), xs, j);
  }

  /** `parseTechnology` keeps input order: the comma pieces of each " A " /
      " and " piece sit in place, after those of the pieces before it and
      before those of the pieces after it; and every comma piece but the
      first has lost the spaces that followed its comma. */
  lemma ParseTechnologyInOrder(technology: string, j: nat)
    requires !AllBlank(technology)
    requires j < |Split(Conjunction, Trim(technology))|
    ensures ParseTechnology(Some(technology)).Some?
    ensures var conjuncts := Split(Conjunction, Trim(technology));
            ParseTechnology(Some(technology)).value ==
              SplitAll(Comma, conjuncts[..j]) + Split(Comma, conjuncts[j]) + SplitAll(Comma, conjuncts[j + 1..])
    ensures var pieces := Split(Comma, Split(Conjunction, Trim(technology))[j]);
            forall i :: 0 < i < |pieces| ==> NoLeadingSpace(pieces[i])
  {
    var conjuncts := Split(Conjunction, Trim(technology));
    assert ParseTechnology(Some(technology)) == Some(SplitAll(Comma, conjuncts));
    SplitAllInPlace(Comma, conjuncts, j);
    SplitCommaStripsSpaces(conjuncts[j]);
  }
}
