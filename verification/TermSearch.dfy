/** Searching a term between word boundaries of a normalised text. */
module TermSearch {
  import opened Text

  predicate IsTermChar(c: char) {
    'a' <= c <= 'z' || IsDigit(c)
  }

  // `_normalize`, with lower-casing for the folding of characters.
  function Normalize(s: string): string {
    Clean(Lower(s), IsTermChar)
  }

  function Tokens(s: string): seq<string> {
    Words(Lower(s), IsTermChar)
  }

  // The expression (?<![a-z0-9])term(?![a-z0-9]) matches text at position i.
  predicate FoundAt(text: string, term: string, i: nat) {
    i + |term| <= |text| && text[i..i + |term|] == term
    && (i == 0 || !IsTermChar(text[i - 1]))
    && (i + |term| == |text| || !IsTermChar(text[i + |term|]))
  }

  predicate BoundarySearch(text: string, term: string) {
    exists i :: 0 <= i <= |text| && FoundAt(text, term, i)
  }

  // ws is a contiguous part of ts.
  ghost predicate IsSublist(ws: seq<string>, ts: seq<string>) {
    exists a, b :: ts == Around(a, ws, b)
  }

  function Around(a: seq<string>, ws: seq<string>, b: seq<string>): seq<string> {
    a + ws + b
  }

  function Gap(a: seq<string>, b: seq<string>): string {
    if a == [] || b == [] then "" else " "
  }

  lemma WordsAreNotEmpty(ws: seq<string>)
    requires AreWords(ws, IsTermChar) && ws != []
    ensures Join(ws) != ""
  {
    assert ws[0] != "";
  }

  lemma JoinAround(a: seq<string>, ws: seq<string>, b: seq<string>)
    requires ws != []
    ensures Join(Around(a, ws, b)) == (Join(a) + Gap(a, ws)) + Join(ws) + (Gap(ws, b) + Join(b))
  {
    JoinConcat(a + ws, b);
    JoinConcat(a, ws);
  }

  // A sublist is found just after the words before it.
  lemma SublistIsFound(a: seq<string>, ws: seq<string>, b: seq<string>)
    requires ws != []
    ensures FoundAt(Join(Around(a, ws, b)), Join(ws), |Join(a) + Gap(a, ws)|)
  {
    JoinAround(a, ws, b);
    FoundBetween(Join(a) + Gap(a, ws), Join(ws), Gap(ws, b) + Join(b));
  }

  lemma FoundBetween(x: string, term: string, y: string)
    requires x == "" || !IsTermChar(x[|x| - 1])
    requires y == "" || !IsTermChar(y[0])
    ensures FoundAt(x + term + y, term, |x|)
  {
  }

  lemma FoundSplits(text: string, term: string, i: nat)
    requires FoundAt(text, term, i) && term != ""
    ensures i + |term| <= |text| && text == text[..i] + (term + text[i + |term|..])
    ensures CutsCleanly(text[..i], term + text[i + |term|..], IsTermChar)
    ensures CutsCleanly(term, text[i + |term|..], IsTermChar)
  {
  }

  lemma FoundIsSublist(ts: seq<string>, ws: seq<string>, i: nat)
    requires AreWords(ts, IsTermChar) && AreWords(ws, IsTermChar) && ws != []
    requires FoundAt(Join(ts), Join(ws), i)
    ensures IsSublist(ws, ts)
  {
    hide FoundAt, Words, Join, CutsCleanly;
    var text, term := Join(ts), Join(ws);
    WordsAreNotEmpty(ws);
    FoundSplits(text, term, i);
    var x, y := text[..i], text[i + |term|..];
    WordsConcat(x, term + y, IsTermChar);
    WordsConcat(term, y, IsTermChar);
    WordsOfJoin(ts, IsTermChar);
    WordsOfJoin(ws, IsTermChar);
    assert ts == Around(Words(x, IsTermChar), ws, Words(y, IsTermChar));
  }

  /**
   Boundary search is token search: the expression finds a normalised term in a normalised text
   exactly when the term's tokens are a contiguous part of the text's tokens.  Parts of words
   never match.
   */
  lemma BoundarySearchIsTokenSearch(text: string, term: string)
    requires Tokens(term) != []
    ensures BoundarySearch(Normalize(text), Normalize(term)) <==> IsSublist(Tokens(term), Tokens(text))
  {
    hide FoundAt, Words, Join;
    var ts, ws := Tokens(text), Tokens(term);
    if IsSublist(ws, ts) {
      var a, b :| ts == Around(a, ws, b);
      SublistIsFound(a, ws, b);
      FoundInside(Join(ts), Join(ws), |Join(a) + Gap(a, ws)|);
    }
    if BoundarySearch(Join(ts), Join(ws)) {
      var i :| 0 <= i <= |Join(ts)| && FoundAt(Join(ts), Join(ws), i);
      FoundIsSublist(ts, ws, i);
    }
  }

  lemma FoundInside(text: string, term: string, i: nat)
    requires FoundAt(text, term, i)
    ensures BoundarySearch(text, term)
  {
  }

  lemma LowerKeepsTermText(ws: seq<string>)
    requires AreWords(ws, IsTermChar)
    ensures Lower(Join(ws)) == Join(ws)
  {
    hide Lower;
    if |ws| > 0 {
      LowerOfTermChars(ws[0]);
      if |ws| > 1 {
        LowerKeepsTermText(ws[1..]);
        LowerConcat(ws[0] + " ", Join(ws[1..]));
        LowerConcat(ws[0], " ");
        LowerOfBlank();
      }
    } else {
      LowerOfTermChars("");
    }
  }

  lemma LowerOfBlank()
    ensures Lower(" ") == " "
  {
  }

  lemma LowerOfTermChars(w: string)
    requires AllOf(w, IsTermChar)
    ensures Lower(w) == w
  {
  }

  lemma LowerConcat(a: string, b: string)
    ensures Lower(a + b) == Lower(a) + Lower(b)
  {
  }

  /** Normalising an already cleaned text is the identity. */
  lemma NormalizeIdempotent(s: string)
    ensures Normalize(Normalize(s)) == Normalize(s)
  {
    hide Words, Join, Lower;
    LowerKeepsTermText(Tokens(s));
    CleanIdempotent(Lower(s), IsTermChar);
  }

  predicate IsLetterOrDigit(c: char) {
    'a' <= c <= 'z' || 'A' <= c <= 'Z' || '0' <= c <= '9'
  }

  // Characters i to j are a maximal run of ASCII letters and digits, and w is their lower-case form.
  ghost predicate LowersTo(text: string, i: nat, j: nat, w: string) {
    && IsRun(text, i, j, IsLetterOrDigit) && |w| == j - i
    && forall x :: 0 <= x < |w| ==> w[x] == if 'A' <= text[i + x] <= 'Z' then (text[i + x] as int + 32) as char else text[i + x]
  }

  lemma LowerRuns(text: string, i: nat, j: nat, w: string)
    ensures IsRunOf(Lower(text), i, j, IsTermChar, w) <==> LowersTo(text, i, j, w)
  {
    hide Lower;
    assert forall x :: 0 <= x < |text| ==> (IsTermChar(Lower(text)[x]) <==> IsLetterOrDigit(text[x]));
  }

  /** The tokens of a text are the lower-case forms of its maximal runs of ASCII letters and digits. */
  lemma TokensAreRuns(text: string, w: string)
    ensures w in Tokens(text) <==> exists i: nat, j: nat :: LowersTo(text, i, j, w)
  {
    hide Words, Lower, IsRunOf, LowersTo;
    WordsAreTheRuns(Lower(text), IsTermChar, w);
    forall i: nat, j: nat ensures IsRunOf(Lower(text), i, j, IsTermChar, w) <==> LowersTo(text, i, j, w) {
      LowerRuns(text, i, j, w);
    }
  }
}
