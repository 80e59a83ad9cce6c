/** The synonym matcher: whole phrases, longest first, each match cut out of the text. */
module Matcher {
  // What is cut out is gone: shorter phrases inside a match are not found again.

  /** Whole-phrase occurrence: no word character touches it on either side. */
  predicate OccursAt(isWord: char -> bool, text: string, term: string, i: nat) {
    && i + |term| <= |text| && text[i..i + |term|] == term
    && (i == 0 || !isWord(text[i - 1]))
    && (i + |term| == |text| || !isWord(text[i + |term|]))
  }

  predicate Occurs(isWord: char -> bool, text: string, term: string) {
    exists i :: 0 <= i <= |text| && OccursAt(isWord, text, term, i)
  }

  const CUT := " | "

  /** What the substitution writes at `i`: the cut mark for an occurrence, else the character itself. */
  function Written(isWord: char -> bool, text: string, term: string, i: nat): string
    requires i < |text|
  {
    if OccursAt(isWord, text, term, i) then CUT else [text[i]]
  }

  /** How far the scan moves at `i`. */
  function Step(isWord: char -> bool, text: string, term: string, i: nat): (n: nat)
    requires term != ""
    ensures n > 0
  {
    if OccursAt(isWord, text, term, i) then |term| else 1
  }

  /** Leftmost non-overlapping occurrences from `i` on, each replaced by the cut mark. */
  function SubFrom(isWord: char -> bool, text: string, term: string, i: nat): string
    requires term != ""
    decreases |text| - i
  {
    if i >= |text| then ""
    else Written(isWord, text, term, i) + SubFrom(isWord, text, term, i + Step(isWord, text, term, i))
  }

  function Sub(isWord: char -> bool, text: string, term: string): string
    requires term != ""
  {
    SubFrom(isWord, text, term, 0)
  }

  /** A dictionary phrase: normalised, so no outer blanks, and free of the cut mark. */
  predicate Phrase(term: string) {
    term != "" && '|' !in term && term[0] != ' ' && term[|term| - 1] != ' '
  }

  predicate Phrases(terms: seq<string>) {
    forall k :: 0 <= k < |terms| ==> Phrase(terms[k])
  }

  // ----- What is left of the query -----

  /** A stretch of the query that is still there; `cut` is the phrase consumed just before it. */
  datatype Piece = Piece(start: nat, text: string, cut: string)

  /** The text the matcher works on: the pieces with a cut mark between them. */
  function Join(pieces: seq<Piece>): string
    requires pieces != []
  {
    if |pieces| == 1 then pieces[0].text else pieces[0].text + CUT + Join(pieces[1..])
  }

  /** Cutting `term` out of one piece; `from` is where the stretch being kept begins. */
  function SplitFrom(isWord: char -> bool, p: Piece, term: string, from: nat, i: nat): (r: seq<Piece>)
    requires term != "" && from <= i && from <= |p.text|
    ensures r != []
    decreases |p.text| - i
  {
    var cut := if from == 0 then p.cut else term;
    if i >= |p.text| then [Piece(p.start + from, p.text[from..], cut)]
    else if OccursAt(isWord, p.text, term, i)
    then [Piece(p.start + from, p.text[from..i], cut)] + SplitFrom(isWord, p, term, i + |term|, i + |term|)
    else SplitFrom(isWord, p, term, from, i + 1)
  }

  function SplitAll(isWord: char -> bool, pieces: seq<Piece>, term: string): (r: seq<Piece>)
    requires term != ""
    ensures pieces != [] ==> r != []
  {
    if pieces == [] then [] else SplitFrom(isWord, pieces[0], term, 0, 0) + SplitAll(isWord, pieces[1..], term)
  }

  /** The pieces left after consuming `terms` in order. */
  function Pieces(isWord: char -> bool, query: string, terms: seq<string>): (r: seq<Piece>)
    requires Phrases(terms)
    ensures r != []
  {
    if terms == [] then [Piece(0, query, "")]
    else SplitAll(isWord, Pieces(isWord, query, terms[..|terms| - 1]), terms[|terms| - 1])
  }

  /** The reported phrases: those found in the text when their turn comes. */
  function Matched(isWord: char -> bool, query: string, terms: seq<string>): seq<string>
    requires Phrases(terms)
  {
    if terms == [] then []
    else
      var n := |terms| - 1;
      Matched(isWord, query, terms[..n])
      + (if Occurs(isWord, Join(Pieces(isWord, query, terms[..n])), terms[n]) then [terms[n]] else [])
  }

  // ----- Rewriting the text is splitting the pieces -----

  /** What surrounds a text does not matter to an occurrence that a non-word character sets off. */
  lemma {:induction false} OccursInPart(isWord: char -> bool, before: string, text: string, after: string, term: string, i: nat)
    requires term != "" && i + |term| <= |text|
    requires before == "" || !isWord(before[|before| - 1])
    requires after == "" || !isWord(after[0])
    ensures OccursAt(isWord, before + text + after, term, |before| + i) <==> OccursAt(isWord, text, term, i)
  {
    var all, at := before + text + after, |before| + i;
    assert all[at..at + |term|] == text[i..i + |term|];
  }

  /** A phrase holds no bar, so it cannot lie across one. */
  lemma {:induction false} NoOccurrenceOnBar(isWord: char -> bool, text: string, term: string, i: nat, bar: nat)
    requires '|' !in term && i <= bar < i + |term| && bar < |text| && text[bar] == '|'
    ensures !OccursAt(isWord, text, term, i)
  {
    if i + |term| <= |text| {
      assert text[i..i + |term|][bar - i] == '|';
    }
  }

  lemma {:induction false} NoOccurrenceOnBlank(isWord: char -> bool, text: string, term: string, i: nat)
    requires Phrase(term) && i + |term| <= |text| && (text[i] == ' ' || text[i + |term| - 1] == ' ')
    ensures !OccursAt(isWord, text, term, i)
  {
    var slice := text[i..i + |term|];
    assert slice[0] == text[i] && slice[|term| - 1] == text[i + |term| - 1];
  }

  /** An occurrence never reaches across a cut mark. */
  lemma {:induction false} OccursAcrossCut(isWord: char -> bool, p: string, rest: string, term: string, i: nat)
    requires Phrase(term) && !isWord(' ') && i <= |p + CUT + rest|
    ensures OccursAt(isWord, p + CUT + rest, term, i) <==>
      (i + |term| <= |p| && OccursAt(isWord, p, term, i))
      || (i >= |p| + 3 && OccursAt(isWord, rest, term, i - |p| - 3))
  {
    var text, n := p + CUT + rest, |term|;
    if i + n <= |p| {
      assert text == "" + p + (CUT + rest);
      OccursInPart(isWord, "", p, CUT + rest, term, i);
    } else if i >= |p| + 3 {
      if i + n <= |text| {
        assert text == (p + CUT) + rest + "";
        OccursInPart(isWord, p + CUT, rest, "", term, i - |p| - 3);
      }
    } else if i + n <= |text| {
      assert text[|p|] == ' ' && text[|p| + 1] == '|' && text[|p| + 2] == ' ';
      if i <= |p| + 1 < i + n {
        NoOccurrenceOnBar(isWord, text, term, i, |p| + 1);
      } else {
        NoOccurrenceOnBlank(isWord, text, term, i);
      }
    }
  }

  lemma {:induction false} SubStep(isWord: char -> bool, text: string, term: string, i: nat, n: nat, tail: string)
    requires term != "" && i < |text| && n == Step(isWord, text, term, i)
    requires SubFrom(isWord, text, term, i + n) == tail
    ensures SubFrom(isWord, text, term, i) == Written(isWord, text, term, i) + tail
  {
    SubUnfold(isWord, text, term, i);
  }

  lemma {:induction false} SubUnfold(isWord: char -> bool, text: string, term: string, i: nat)
    requires term != "" && i < |text|
    ensures SubFrom(isWord, text, term, i) == Written(isWord, text, term, i) + SubFrom(isWord, text, term, i + Step(isWord, text, term, i))
  {
  }

  /** The two texts are written alike at `j` and at `i`. */
  lemma {:induction false} SameStep(isWord: char -> bool, text: string, j: nat, part: string, i: nat, term: string)
    requires term != "" && j < |text| && i < |part| && text[j] == part[i]
    requires OccursAt(isWord, text, term, j) <==> OccursAt(isWord, part, term, i)
    ensures Written(isWord, text, term, j) == Written(isWord, part, term, i)
    ensures Step(isWord, text, term, j) == Step(isWord, part, term, i)
  {
  }

  /** Behind a cut mark the text is rewritten as if it stood alone; `j` is position `i` of `rest`. */
  lemma {:induction false} SubShift(isWord: char -> bool, p: string, rest: string, term: string, text: string, i: nat, j: nat)
    requires Phrase(term) && !isWord(' ') && text == p + CUT + rest && i <= |rest| && j == |p| + 3 + i
    ensures SubFrom(isWord, text, term, j) == SubFrom(isWord, rest, term, i)
    decreases |rest| - i
  {
    if i < |rest| {
      var n := Step(isWord, rest, term, i);
      StepWithin(isWord, rest, term, i);
      SubShift(isWord, p, rest, term, text, i + n, j + n);
      SubShiftStep(isWord, p, rest, term, text, i, j, n);
    }
  }

  lemma {:induction false} SubShiftStep(
      isWord: char -> bool, p: string, rest: string, term: string, text: string, i: nat, j: nat, n: nat)
    requires Phrase(term) && !isWord(' ') && text == p + CUT + rest && i < |rest| && j == |p| + 3 + i
    requires n == Step(isWord, rest, term, i) && SubFrom(isWord, text, term, j + n) == SubFrom(isWord, rest, term, i + n)
    ensures SubFrom(isWord, text, term, j) == SubFrom(isWord, rest, term, i)
  {
    AlikeBehindCut(isWord, p, rest, term, text, i, j);
    ShiftStep(isWord, text, j, rest, i, term, n, SubFrom(isWord, rest, term, i + n));
  }

  lemma {:induction false} AlikeBehindCut(isWord: char -> bool, p: string, rest: string, term: string, text: string, i: nat, j: nat)
    requires Phrase(term) && !isWord(' ') && text == p + CUT + rest && i < |rest| && j == |p| + 3 + i
    ensures |text| == |p| + 3 + |rest| && text[j] == rest[i]
    ensures OccursAt(isWord, text, term, j) <==> OccursAt(isWord, rest, term, i)
  {
    OccursAcrossCut(isWord, p, rest, term, j);
  }

  lemma {:induction false} ShiftStep(
      isWord: char -> bool, text: string, j: nat, rest: string, i: nat, term: string, n: nat, tail: string)
    requires term != "" && j < |text| && i < |rest| && text[j] == rest[i]
    requires OccursAt(isWord, text, term, j) <==> OccursAt(isWord, rest, term, i)
    requires n == Step(isWord, rest, term, i)
    requires SubFrom(isWord, rest, term, i + n) == tail && SubFrom(isWord, text, term, j + n) == tail
    ensures SubFrom(isWord, text, term, j) == SubFrom(isWord, rest, term, i)
  {
    SameStep(isWord, text, j, rest, i, term);
    SubStep(isWord, text, term, j, n, tail);
    SubStep(isWord, rest, term, i, n, tail);
  }

  lemma {:induction false} NoneOnCut(isWord: char -> bool, p: string, rest: string, term: string, text: string, i: nat)
    requires Phrase(term) && !isWord(' ') && text == p + CUT + rest && |p| <= i < |p| + 3
    ensures |text| == |p| + 3 + |rest| && text[i] == CUT[i - |p|] && !OccursAt(isWord, text, term, i)
  {
    OccursAcrossCut(isWord, p, rest, term, i);
  }

  lemma {:induction false} CopyOne(isWord: char -> bool, text: string, term: string, i: nat, c: char, tail: string)
    requires term != "" && i < |text| && text[i] == c && !OccursAt(isWord, text, term, i)
    requires SubFrom(isWord, text, term, i + 1) == tail
    ensures SubFrom(isWord, text, term, i) == [c] + tail
  {
    SubStep(isWord, text, term, i, 1, tail);
  }

  /** The cut mark itself is copied. */
  lemma {:induction false} SubOverCut(isWord: char -> bool, p: string, rest: string, term: string, text: string)
    requires Phrase(term) && !isWord(' ') && text == p + CUT + rest
    ensures SubFrom(isWord, text, term, |p|) == CUT + SubFrom(isWord, rest, term, 0)
  {
    var n, tail := |p|, SubFrom(isWord, rest, term, 0);
    NoneOnCut(isWord, p, rest, term, text, n);
    NoneOnCut(isWord, p, rest, term, text, n + 1);
    NoneOnCut(isWord, p, rest, term, text, n + 2);
    SubShift(isWord, p, rest, term, text, 0, n + 3);
    CopyCut(isWord, text, term, n, tail);
  }

  lemma {:induction false} CopyCut(isWord: char -> bool, text: string, term: string, n: nat, tail: string)
    requires term != "" && n + 3 <= |text|
    requires text[n] == ' ' && text[n + 1] == '|' && text[n + 2] == ' '
    requires !OccursAt(isWord, text, term, n) && !OccursAt(isWord, text, term, n + 1) && !OccursAt(isWord, text, term, n + 2)
    requires SubFrom(isWord, text, term, n + 3) == tail
    ensures SubFrom(isWord, text, term, n) == CUT + tail
  {
    CopyOne(isWord, text, term, n + 2, ' ', tail);
    CopyOne(isWord, text, term, n + 1, '|', [' '] + tail);
    CopyOne(isWord, text, term, n, ' ', ['|'] + ([' '] + tail));
    assert [' '] + (['|'] + ([' '] + tail)) == CUT + tail;
  }

  /** In front of a cut mark the text is rewritten as if it stood alone; `tail` is what follows. */
  lemma {:induction false} SubOfCut(isWord: char -> bool, p: string, rest: string, term: string, text: string, i: nat, tail: string)
    requires Phrase(term) && !isWord(' ') && text == p + CUT + rest && i <= |p|
    requires tail == SubFrom(isWord, text, term, |p|)
    ensures SubFrom(isWord, text, term, i) == SubFrom(isWord, p, term, i) + tail
    decreases |p| - i
  {
    if i == |p| {
      NothingLeft(SubFrom(isWord, p, term, i), tail);
    } else {
      AlikeBeforeCut(isWord, p, rest, term, text, i);
      StepWithin(isWord, p, term, i);
      SubOfCut(isWord, p, rest, term, text, i + Step(isWord, p, term, i), tail);
      CutStep(isWord, p, text, term, i, tail);
    }
  }

  lemma {:induction false} StepWithin(isWord: char -> bool, text: string, term: string, i: nat)
    requires term != "" && i < |text|
    ensures i + Step(isWord, text, term, i) <= |text|
  {
  }

  lemma {:induction false} NothingLeft(a: string, tail: string)
    requires a == ""
    ensures tail == a + tail
  {
  }

  lemma {:induction false} AlikeBeforeCut(isWord: char -> bool, p: string, rest: string, term: string, text: string, i: nat)
    requires Phrase(term) && !isWord(' ') && text == p + CUT + rest && i < |p|
    ensures |p| <= |text| && text[i] == p[i]
    ensures OccursAt(isWord, text, term, i) <==> OccursAt(isWord, p, term, i)
  {
    OccursAcrossCut(isWord, p, rest, term, i);
  }

  /** One step of the substitution, the same in `text` as in its first part `p`. */
  lemma {:induction false} CutStep(isWord: char -> bool, p: string, text: string, term: string, i: nat, tail: string)
    requires term != "" && i < |p| <= |text| && text[i] == p[i]
    requires OccursAt(isWord, text, term, i) <==> OccursAt(isWord, p, term, i)
    requires var next := i + Step(isWord, p, term, i);
      SubFrom(isWord, text, term, next) == SubFrom(isWord, p, term, next) + tail
    ensures SubFrom(isWord, text, term, i) == SubFrom(isWord, p, term, i) + tail
  {
    var n := Step(isWord, p, term, i);
    var middle := SubFrom(isWord, p, term, i + n);
    SameStep(isWord, text, i, p, i, term);
    SubStep(isWord, p, term, i, n, middle);
    SubStep(isWord, text, term, i, n, middle + tail);
    Associative(Written(isWord, p, term, i), middle, tail);
  }

  lemma {:induction false} Associative(a: string, b: string, tail: string)
    ensures a + (b + tail) == a + b + tail
  {
  }

  /** Cutting `p` from `i` on and joining again is rewriting it from `i` on. */
  predicate SplitsAsSub(isWord: char -> bool, p: Piece, term: string, from: nat, i: nat)
    requires term != "" && from <= i <= |p.text|
  {
    Join(SplitFrom(isWord, p, term, from, i)) == p.text[from..i] + SubFrom(isWord, p.text, term, i)
  }

  lemma {:induction false} SplitIsSub(isWord: char -> bool, p: Piece, term: string, from: nat, i: nat)
    requires term != "" && from <= i <= |p.text|
    ensures SplitsAsSub(isWord, p, term, from, i)
    decreases |p.text| - i
  {
    if i == |p.text| {
      LastPiece(isWord, p, term, from);
    } else if OccursAt(isWord, p.text, term, i) {
      SplitIsSub(isWord, p, term, i + |term|, i + |term|);
      SplitAtOccurrence(isWord, p, term, from, i);
    } else {
      SplitIsSub(isWord, p, term, from, i + 1);
      SplitElsewhere(isWord, p, term, from, i);
    }
  }

  lemma {:induction false} SplitAtOccurrence(isWord: char -> bool, p: Piece, term: string, from: nat, i: nat)
    requires term != "" && from <= i < |p.text| && OccursAt(isWord, p.text, term, i)
    requires SplitsAsSub(isWord, p, term, i + |term|, i + |term|)
    ensures SplitsAsSub(isWord, p, term, from, i)
  {
    var next := i + |term|;
    KeepNone(p.text, next, SubFrom(isWord, p.text, term, next));
    SplitStep(isWord, p, term, from, i, SplitFrom(isWord, p, term, next, next), SubFrom(isWord, p.text, term, next));
  }

  lemma {:induction false} SplitElsewhere(isWord: char -> bool, p: Piece, term: string, from: nat, i: nat)
    requires term != "" && from <= i < |p.text| && !OccursAt(isWord, p.text, term, i)
    requires SplitsAsSub(isWord, p, term, from, i + 1)
    ensures SplitsAsSub(isWord, p, term, from, i)
  {
    KeepStep(isWord, p.text, term, from, i, SubFrom(isWord, p.text, term, i + 1));
  }

  lemma {:induction false} LastPiece(isWord: char -> bool, p: Piece, term: string, from: nat)
    requires term != "" && from <= |p.text|
    ensures SplitsAsSub(isWord, p, term, from, |p.text|)
  {
    assert p.text[from..] == p.text[from..|p.text|] + "";
  }

  lemma {:induction false} KeepStep(isWord: char -> bool, text: string, term: string, from: nat, i: nat, tail: string)
    requires term != "" && from <= i < |text| && !OccursAt(isWord, text, term, i)
    requires SubFrom(isWord, text, term, i + 1) == tail
    ensures text[from..i + 1] + tail == text[from..i] + SubFrom(isWord, text, term, i)
  {
    CopyOne(isWord, text, term, i, text[i], tail);
    KeepOne(text, from, i, tail);
  }

  lemma {:induction false} SplitStep(
      isWord: char -> bool, p: Piece, term: string, from: nat, i: nat, pieces: seq<Piece>, tail: string)
    requires term != "" && from <= i < |p.text| && OccursAt(isWord, p.text, term, i)
    requires pieces == SplitFrom(isWord, p, term, i + |term|, i + |term|) && Join(pieces) == tail
    requires SubFrom(isWord, p.text, term, i + |term|) == tail
    ensures Join(SplitFrom(isWord, p, term, from, i)) == p.text[from..i] + SubFrom(isWord, p.text, term, i)
  {
    var head := Piece(p.start + from, p.text[from..i], if from == 0 then p.cut else term);
    SplitHere(isWord, p, term, from, i, head, pieces);
    JoinCons(head, pieces);
    SubStep(isWord, p.text, term, i, |term|, tail);
  }

  lemma {:induction false} SplitHere(
      isWord: char -> bool, p: Piece, term: string, from: nat, i: nat, head: Piece, pieces: seq<Piece>)
    requires term != "" && from <= i < |p.text| && OccursAt(isWord, p.text, term, i)
    requires head == Piece(p.start + from, p.text[from..i], if from == 0 then p.cut else term)
    requires pieces == SplitFrom(isWord, p, term, i + |term|, i + |term|)
    ensures SplitFrom(isWord, p, term, from, i) == [head] + pieces
  {
  }

  lemma {:induction false} KeepNone(text: string, i: nat, rest: string)
    requires i <= |text|
    ensures text[i..i] + rest == rest
  {
  }

  lemma {:induction false} KeepOne(text: string, from: nat, i: nat, rest: string)
    requires from <= i < |text|
    ensures text[from..i + 1] + rest == text[from..i] + ([text[i]] + rest)
  {
  }

  lemma {:induction false} JoinCons(head: Piece, tail: seq<Piece>)
    requires tail != []
    ensures Join([head] + tail) == head.text + (CUT + Join(tail))
  {
    JoinConcat([head], tail);
  }

  lemma {:induction false} JoinConcat(a: seq<Piece>, b: seq<Piece>)
    requires a != [] && b != []
    ensures Join(a + b) == Join(a) + CUT + Join(b)
  {
    if |a| == 1 {
      assert (a + b)[1..] == b;
    } else {
      assert (a + b)[1..] == a[1..] + b;
      JoinConcat(a[1..], b);
    }
  }

  lemma {:induction false} SplitWhole(isWord: char -> bool, p: Piece, term: string)
    requires term != ""
    ensures Join(SplitFrom(isWord, p, term, 0, 0)) == SubFrom(isWord, p.text, term, 0)
  {
    SplitIsSub(isWord, p, term, 0, 0);
    KeepNone(p.text, 0, SubFrom(isWord, p.text, term, 0));
  }

  lemma {:induction false} SplitOnePiece(isWord: char -> bool, p: Piece, term: string)
    requires term != ""
    ensures SplitAll(isWord, [p], term) == SplitFrom(isWord, p, term, 0, 0)
  {
    assert [p][1..] == [];
    assert SplitAll(isWord, [], term) == [];
  }

  /** The two sides of a cut mark are rewritten apart. */
  lemma {:induction false} SubAcrossCut(isWord: char -> bool, p: string, rest: string, term: string)
    requires Phrase(term) && !isWord(' ')
    ensures Sub(isWord, p + CUT + rest, term) == Sub(isWord, p, term) + CUT + Sub(isWord, rest, term)
  {
    var text := p + CUT + rest;
    var tail := CUT + Sub(isWord, rest, term);
    SubOverCut(isWord, p, rest, term, text);
    SubOfCut(isWord, p, rest, term, text, 0, tail);
    Associative(Sub(isWord, p, term), CUT, Sub(isWord, rest, term));
  }

  lemma {:induction false} SplitMorePieces(isWord: char -> bool, p: Piece, rest: seq<Piece>, term: string)
    requires rest != [] && Phrase(term) && !isWord(' ')
    requires Join(SplitAll(isWord, rest, term)) == Sub(isWord, Join(rest), term)
    ensures Join(SplitAll(isWord, [p] + rest, term)) == Sub(isWord, Join([p] + rest), term)
  {
    assert ([p] + rest)[1..] == rest;
    SplitWhole(isWord, p, term);
    JoinConcat(SplitFrom(isWord, p, term, 0, 0), SplitAll(isWord, rest, term));
    JoinConcat([p], rest);
    SubAcrossCut(isWord, p.text, Join(rest), term);
  }

  /** Substituting in the joined text is the same as splitting every piece. */
  lemma {:induction false} SubIsSplitAll(isWord: char -> bool, pieces: seq<Piece>, term: string)
    requires pieces != [] && Phrase(term) && !isWord(' ')
    ensures Join(SplitAll(isWord, pieces, term)) == Sub(isWord, Join(pieces), term)
  {
    if |pieces| == 1 {
      assert pieces == [pieces[0]];
      SplitOnePiece(isWord, pieces[0], term);
      SplitWhole(isWord, pieces[0], term);
    } else {
      assert pieces == [pieces[0]] + pieces[1..];
      SubIsSplitAll(isWord, pieces[1..], term);
      SplitMorePieces(isWord, pieces[0], pieces[1..], term);
    }
  }

  /** The matcher as it runs, on one string that it rewrites term by term. */
  method MatchedTerms(isWord: char -> bool, query: string, terms: seq<string>) returns (found: seq<string>, text: string)
    requires Phrases(terms) && !isWord(' ')
    ensures found == Matched(isWord, query, terms)
    ensures text == Join(Pieces(isWord, query, terms))
  {
    text, found := query, [];
    var k := 0;
    while k < |terms|
      invariant k <= |terms|
      invariant text == Join(Pieces(isWord, query, terms[..k]))
      invariant found == Matched(isWord, query, terms[..k])
    {
      var term := terms[k];
      assert terms[..k + 1][..k] == terms[..k];
      SubIsSplitAll(isWord, Pieces(isWord, query, terms[..k]), term);
      if Occurs(isWord, text, term) {
        found := found + [term];
        text := Sub(isWord, text, term);
      } else {
        NothingToSub(isWord, text, term, 0);
      }
      k := k + 1;
    }
    assert terms[..k] == terms;
  }

  lemma {:induction false} NothingToSub(isWord: char -> bool, text: string, term: string, i: nat)
    requires term != "" && !Occurs(isWord, text, term) && i <= |text|
    ensures SubFrom(isWord, text, term, i) == text[i..]
    decreases |text| - i
  {
    if i < |text| {
      NothingToSub(isWord, text, term, i + 1);
    }
  }
}
