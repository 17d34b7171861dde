/**
 Words of a text, as `str.split`, `" ".join` and the detector's `[^a-z0-9]+`
 substitution see them.  `keep` says which characters belong to a word.
 */
module Text {

  // ASCII and Latin-1 white space, as `str.split()` and `str.strip()` recognise it.
  predicate IsSpace(c: char) {
    var n := c as int;
    9 <= n <= 13 || 28 <= n <= 32 || n == 133 || n == 160
  }

  predicate NotSpace(c: char) {
    !IsSpace(c)
  }

  predicate IsDigit(c: char) {
    '0' <= c <= '9'
  }

  // `str.isdigit`, in Latin-1: the superscripts are digits too.
  predicate IsDigitLike(c: char) {
    IsDigit(c) || c == '\U{B2}' || c == '\U{B3}' || c == '\U{B9}'
  }

  // PostgreSQL keeps no NUL in texts or JSON.
  predicate NoNul(s: string) {
    forall i :: 0 <= i < |s| ==> s[i] != '\0'
  }

  predicate IsAlnum(c: char) {
    'a' <= c <= 'z' || 'A' <= c <= 'Z' || IsDigit(c)
  }

  function UpperChar(c: char): char {
    if 'a' <= c <= 'z' then (c as int - 32) as char else c
  }

  function LowerChar(c: char): char {
    if 'A' <= c <= 'Z' then (c as int + 32) as char else c
  }

  function Upper(s: string): (r: string)
    ensures |r| == |s|
    ensures forall i :: 0 <= i < |s| ==> r[i] == UpperChar(s[i])
  {
    if s == "" then "" else [UpperChar(s[0])] + Upper(s[1..])
  }

  function Lower(s: string): (r: string)
    ensures |r| == |s|
    ensures forall i :: 0 <= i < |s| ==> r[i] == LowerChar(s[i])
  {
    if s == "" then "" else [LowerChar(s[0])] + Lower(s[1..])
  }

  /** Changing case moves the twenty-six ASCII letters by 32 and nothing else. */
  lemma CaseMovesLetters(s: string, i: nat)
    requires i < |s|
    ensures Upper(s)[i] == if 'a' <= s[i] <= 'z' then (s[i] as int - 32) as char else s[i]
    ensures Lower(s)[i] == if 'A' <= s[i] <= 'Z' then (s[i] as int + 32) as char else s[i]
  {
    hide Upper, Lower;
  }

  predicate AllOf(s: string, keep: char -> bool) {
    forall i :: 0 <= i < |s| ==> keep(s[i])
  }

  // The characters of s that satisfy keep, in order.
  function Only(s: string, keep: char -> bool): (r: string)
    ensures AllOf(r, keep)
    ensures AllOf(s, keep) ==> r == s
  {
    if s == "" then ""
    else if keep(s[0]) then [s[0]] + Only(s[1..], keep)
    else Only(s[1..], keep)
  }

  // Length of the longest prefix made of kept characters.
  function RunLength(s: string, keep: char -> bool): (n: nat)
    ensures n <= |s| && AllOf(s[..n], keep)
    ensures n < |s| ==> !keep(s[n])
  {
    if s == "" || !keep(s[0]) then 0 else 1 + RunLength(s[1..], keep)
  }

  // The maximal runs of kept characters, left to right.
  function Words(s: string, keep: char -> bool): (ws: seq<string>)
    ensures AreWords(ws, keep)
    decreases |s|
  {
    if s == "" then []
    else if !keep(s[0]) then Words(s[1..], keep)
    else
      var n := RunLength(s, keep);
      [s[..n]] + Words(s[n..], keep)
  }

  predicate AreWords(ws: seq<string>, keep: char -> bool) {
    forall i :: 0 <= i < |ws| ==> ws[i] != "" && AllOf(ws[i], keep)
  }

  function Join(ws: seq<string>): string {
    if |ws| == 0 then ""
    else if |ws| == 1 then ws[0]
    else ws[0] + " " + Join(ws[1..])
  }

  // Runs of kept characters separated by single blanks.
  function Clean(s: string, keep: char -> bool): string {
    Join(Words(s, keep))
  }

  // `str.strip`
  function Strip(s: string): (r: string)
    ensures |r| <= |s|
    ensures r != "" ==> NotSpace(r[0]) && NotSpace(r[|r| - 1])
    decreases |s|
  {
    if s == "" then ""
    else if IsSpace(s[0]) then Strip(s[1..])
    else if IsSpace(s[|s| - 1]) then Strip(s[..|s| - 1])
    else s
  }

  // A cut between a and b does not split a word.
  predicate CutsCleanly(a: string, b: string, keep: char -> bool) {
    a == "" || b == "" || !keep(a[|a| - 1]) || !keep(b[0])
  }

  lemma {:induction false} RunLengthIs(s: string, keep: char -> bool, n: nat)
    requires n <= |s| && AllOf(s[..n], keep) && (n < |s| ==> !keep(s[n]))
    ensures RunLength(s, keep) == n
  {
  }

  // A run that does not reach the cut, or reaches a clean one, ends there.
  lemma RunLengthConcat(a: string, b: string, keep: char -> bool)
    requires CutsCleanly(a, b, keep)
    ensures RunLength(a + b, keep) == RunLength(a, keep) || a == ""
  {
    if a != "" {
      var n := RunLength(a, keep);
      assert (a + b)[..n] == a[..n];
      assert n == |a| ==> n > 0 && a[..n][n - 1] == a[n - 1];
      RunLengthIs(a + b, keep, n);
    }
  }

  lemma CutConcat(a: string, b: string, n: nat)
    requires n <= |a|
    ensures (a + b)[..n] == a[..n] && (a + b)[n..] == a[n..] + b
  {
  }

  // One word, or one separator, is taken off at a time.
  function Head(s: string, keep: char -> bool): (n: nat)
    requires s != ""
    ensures 0 < n <= |s|
  {
    if keep(s[0]) then RunLength(s, keep) else 1
  }

  lemma WordsStep(s: string, keep: char -> bool)
    requires s != ""
    ensures Words(s, keep) == (if keep(s[0]) then [s[..Head(s, keep)]] else []) + Words(s[Head(s, keep)..], keep)
  {
  }

  lemma CutStaysClean(a: string, b: string, keep: char -> bool, n: nat)
    requires CutsCleanly(a, b, keep) && n <= |a|
    ensures CutsCleanly(a[n..], b, keep)
  {
  }

  lemma {:induction false} WordsConcat(a: string, b: string, keep: char -> bool)
    requires CutsCleanly(a, b, keep)
    ensures Words(a + b, keep) == Words(a, keep) + Words(b, keep)
    decreases |a|
  {
    if a == "" {
      assert a + b == b;
    } else {
      hide AllOf, Words, RunLength, CutsCleanly;
      var n := Head(a, keep);
      CutStaysClean(a, b, keep, n);
      RunLengthConcat(a, b, keep);
      CutConcat(a, b, n);
      WordsStep(a, keep);
      WordsStep(a + b, keep);
      WordsConcat(a[n..], b, keep);
    }
  }

  lemma WordsOfOne(w: string, keep: char -> bool)
    requires w != "" && AllOf(w, keep)
    ensures Words(w, keep) == [w]
  {
    assert w[..|w|] == w && w[|w|..] == "";
    RunLengthIs(w, keep, |w|);
  }

  lemma WordsAfterBlank(s: string, keep: char -> bool)
    requires !keep(' ')
    ensures Words(" " + s, keep) == Words(s, keep)
  {
    assert (" " + s)[1..] == s;
  }

  lemma {:induction false} WordsOfJoin(ws: seq<string>, keep: char -> bool)
    requires !keep(' ') && AreWords(ws, keep)
    ensures Words(Join(ws), keep) == ws
  {
    if |ws| == 0 {
    } else {
      hide Words, AllOf;
      WordsOfOne(ws[0], keep);
      if |ws| > 1 {
        var text := Join(ws[1..]);
        WordsOfJoin(ws[1..], keep);
        WordsAfterBlank(text, keep);
        assert ws[0] + " " + text == ws[0] + (" " + text);
        WordsConcat(ws[0], " " + text, keep);
        assert ws == [ws[0]] + ws[1..];
      }
    }
  }

  /** Cleaning a text that is already clean changes nothing. */
  lemma CleanIdempotent(s: string, keep: char -> bool)
    requires !keep(' ')
    ensures Clean(Clean(s, keep), keep) == Clean(s, keep)
  {
    WordsOfJoin(Words(s, keep), keep);
  }

  lemma {:induction false} JoinConcat(a: seq<string>, b: seq<string>)
    ensures Join(a + b) == Join(a) + (if a == [] || b == [] then "" else " ") + Join(b)
  {
    if a == [] {
      assert a + b == b;
    } else if |a| == 1 {
      if b == [] {
        assert a + b == a;
      } else {
        assert (a + b)[1..] == b;
      }
    } else {
      assert (a + b)[1..] == a[1..] + b;
      JoinConcat(a[1..], b);
    }
  }

  // Characters i to j of s are kept, and cannot be extended on either side.
  predicate IsRun(s: string, i: nat, j: nat, keep: char -> bool) {
    && i < j <= |s| && (forall x :: i <= x < j ==> keep(s[x]))
    && (i == 0 || !keep(s[i - 1])) && (j == |s| || !keep(s[j]))
  }

  predicate IsRunOf(s: string, i: nat, j: nat, keep: char -> bool, w: string) {
    IsRun(s, i, j, keep) && w == s[i..j]
  }

  // A run that starts in the head is the head.
  lemma RunInHead(s: string, i: nat, j: nat, keep: char -> bool)
    requires s != "" && IsRun(s, i, j, keep) && i < Head(s, keep)
    ensures keep(s[0]) && i == 0 && j == Head(s, keep)
  {
    var n := Head(s, keep);
    if keep(s[0]) {
      assert forall x :: 0 <= x < n ==> keep(s[..n][x]) && s[..n][x] == s[x];
    }
  }

  lemma HeadIsRun(s: string, keep: char -> bool)
    requires s != ""
    ensures var n := Head(s, keep); n == |s| || !keep(s[n]) || !keep(s[n - 1])
    ensures keep(s[0]) ==> IsRunOf(s, 0, Head(s, keep), keep, s[..Head(s, keep)])
  {
    var n := Head(s, keep);
    if keep(s[0]) {
      assert forall x :: 0 <= x < n ==> keep(s[..n][x]) && s[..n][x] == s[x];
      assert s[0..n] == s[..n];
    }
  }

  lemma RunsAfter(s: string, n: nat, i: nat, j: nat, keep: char -> bool, w: string)
    requires n <= |s| && (n == 0 || n == |s| || !keep(s[n]) || !keep(s[n - 1]))
    ensures IsRunOf(s, n + i, n + j, keep, w) <==> IsRunOf(s[n..], i, j, keep, w)
  {
    if n + i <= n + j <= |s| {
      assert s[n..][i..j] == s[n + i..n + j];
    }
    assert forall x :: n <= x < |s| ==> s[x] == s[n..][x - n];
    assert forall x :: 0 <= x < |s| - n ==> s[n..][x] == s[n + x];
  }

  // A run is the head, when that is a word, or lies behind it.
  lemma RunsFromHead(s: string, keep: char -> bool, w: string)
    requires s != ""
    ensures var n := Head(s, keep);
      (exists i: nat, j: nat :: IsRunOf(s, i, j, keep, w))
      <==> (keep(s[0]) && w == s[..n]) || exists i: nat, j: nat :: IsRunOf(s[n..], i, j, keep, w)
  {
    hide RunLength, Head, IsRun;
    var n := Head(s, keep);
    HeadIsRun(s, keep);
    if i: nat, j: nat :| IsRunOf(s, i, j, keep, w) {
      if i < n {
        RunInHead(s, i, j, keep);
        assert s[0..n] == s[..n];
      } else {
        RunEnds(s, i, j, keep);
        RunsAfter(s, n, i - n, j - n, keep, w);
      }
    }
    if i: nat, j: nat :| IsRunOf(s[n..], i, j, keep, w) {
      RunsAfter(s, n, i, j, keep, w);
    }
  }

  lemma RunEnds(s: string, i: nat, j: nat, keep: char -> bool)
    requires IsRun(s, i, j, keep)
    ensures i < j <= |s|
  {
  }

  /** The words are the maximal runs of kept characters: every run is a word, and every word is a run. */
  lemma {:induction false} WordsAreTheRuns(s: string, keep: char -> bool, w: string)
    ensures w in Words(s, keep) <==> exists i: nat, j: nat :: IsRunOf(s, i, j, keep, w)
    decreases |s|
  {
    if s == "" {
      NoRuns(keep, w);
    } else {
      hide Words, IsRunOf, RunLength;
      var n := Head(s, keep);
      WordsStep(s, keep);
      WordsAreTheRuns(s[n..], keep, w);
      RunsFromHead(s, keep, w);
    }
  }

  lemma NoRuns(keep: char -> bool, w: string)
    ensures forall i: nat, j: nat :: !IsRunOf("", i, j, keep, w)
  {
  }

  // ------------------------------------------------------------------ digits and pieces

  function TenTo(n: nat): nat {
    if n == 0 then 1 else 10 * TenTo(n - 1)
  }

  // The decimal digits of a text by their places.
  function Places(s: string): int {
    if s == "" then 0 else (s[0] as int - '0' as int) * TenTo(|s| - 1) + Places(s[1..])
  }

  lemma {:induction false} PlacesAppend(s: string, c: char)
    ensures Places(s + [c]) == 10 * Places(s) + (c as int - '0' as int)
  {
    if s != "" {
      PlacesAppend(s[1..], c);
      assert (s + [c])[1..] == s[1..] + [c];
      TimesTen(s[0] as int - '0' as int, TenTo(|s| - 1));
    } else {
      assert [c][1..] == "";
    }
  }

  lemma TimesTen(d: int, t: nat)
    ensures d * (10 * t) == 10 * (d * t)
  {
  }


  // s without the blanks around it.
  ghost predicate IsStripped(s: string, a: nat, b: nat) {
    && a <= b <= |s|
    && (forall i :: 0 <= i < a || b <= i < |s| ==> IsSpace(s[i]))
    && (a < b ==> !IsSpace(s[a]) && !IsSpace(s[b - 1]))
  }

  lemma StrippedBehind(s: string, a: nat, b: nat)
    requires s != "" && IsSpace(s[0]) && IsStripped(s[1..], a, b)
    ensures IsStripped(s, a + 1, b + 1) && s[1..][a..b] == s[a + 1..b + 1]
  {
    hide IsSpace;
    assert forall i :: 1 <= i < |s| ==> s[i] == s[1..][i - 1];
  }

  lemma StrippedBefore(s: string, a: nat, b: nat)
    requires s != "" && IsSpace(s[|s| - 1]) && IsStripped(s[..|s| - 1], a, b)
    ensures IsStripped(s, a, b) && s[..|s| - 1][a..b] == s[a..b]
  {
    hide IsSpace;
    assert forall i :: 0 <= i < |s| - 1 ==> s[i] == s[..|s| - 1][i];
  }

  /** Stripping takes off the white space at both ends and nothing else. */
  lemma {:induction false} StripIs(s: string) returns (a: nat, b: nat)
    ensures IsStripped(s, a, b) && Strip(s) == s[a..b]
    decreases |s|
  {
    hide IsSpace;
    if s == "" {
      a, b := 0, 0;
    } else if IsSpace(s[0]) {
      a, b := StripIs(s[1..]);
      StrippedBehind(s, a, b);
      a, b := a + 1, b + 1;
    } else if IsSpace(s[|s| - 1]) {
      a, b := StripIs(s[..|s| - 1]);
      StrippedBefore(s, a, b);
    } else {
      a, b := 0, |s|;
    }
  }

  /** Dropping characters works piece by piece and keeps the others as often as they occur. */
  lemma {:induction false} OnlyOfPieces(s: string, t: string, keep: char -> bool, c: char)
    ensures Only(s + t, keep) == Only(s, keep) + Only(t, keep)
    ensures multiset(Only(s, keep))[c] == if keep(c) then multiset(s)[c] else 0
  {
    if s == "" {
      assert s + t == t;
    } else {
      assert (s + t)[1..] == s[1..] + t && s == [s[0]] + s[1..];
      OnlyOfPieces(s[1..], t, keep, c);
    }
  }
}
