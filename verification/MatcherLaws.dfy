/** What the consuming matcher reports: disjoint spans of the query, and every phrase they leave free. */
module MatcherLaws {
  import opened Matcher

  function End(p: Piece): nat {
    p.start + |p.text|
  }

  predicate Slice(query: string, p: Piece) {
    End(p) <= |query| && p.text == query[p.start..End(p)]
  }

  /** Between two neighbouring pieces lies the span of the phrase consumed there, touching no word. */
  predicate Gap(isWord: char -> bool, query: string, a: Piece, b: Piece) {
    && b.cut != "" && End(a) + |b.cut| == b.start <= |query|
    && query[End(a)..b.start] == b.cut
    && (a.text == "" || !isWord(a.text[|a.text| - 1]))
    && (b.text == "" || !isWord(b.text[0]))
  }

  predicate Chain(isWord: char -> bool, query: string, pieces: seq<Piece>) {
    && (forall k :: 0 <= k < |pieces| ==> Slice(query, pieces[k]))
    && (forall k :: 1 <= k < |pieces| ==> Gap(isWord, query, pieces[k - 1], pieces[k]))
  }

  /** Pieces and gaps together lay out the whole query. */
  predicate Layout(isWord: char -> bool, query: string, pieces: seq<Piece>) {
    pieces != [] && pieces[0].start == 0 && End(pieces[|pieces| - 1]) == |query| && Chain(isWord, query, pieces)
  }

  lemma {:induction false} ChainConcat(isWord: char -> bool, query: string, a: seq<Piece>, b: seq<Piece>)
    requires Chain(isWord, query, a) && Chain(isWord, query, b)
    requires a != [] && b != [] ==> Gap(isWord, query, a[|a| - 1], b[0])
    ensures Chain(isWord, query, a + b)
  {
    var all := a + b;
    forall k | 1 <= k < |all| ensures Gap(isWord, query, all[k - 1], all[k]) {
      if k < |a| {
        assert Gap(isWord, query, a[k - 1], a[k]);
      } else if k > |a| {
        assert Gap(isWord, query, b[k - |a| - 1], b[k - |a|]);
      }
    }
  }

  // ----- Splitting -----

  /** What a run of pieces keeps of the piece it was split from: both ends and what its edges touch. */
  predicate SameFront(p: Piece, q: Piece) {
    && q.start == p.start && q.cut == p.cut
    && (q.text != "" ==> p.text != "" && q.text[0] == p.text[0])
  }

  predicate SameBack(p: Piece, q: Piece) {
    && End(q) == End(p)
    && (q.text != "" ==> p.text != "" && q.text[|q.text| - 1] == p.text[|p.text| - 1])
  }

  /** The part of `p` from position `from` on. */
  function Rest(p: Piece, term: string, from: nat): Piece
    requires from <= |p.text|
  {
    Piece(p.start + from, p.text[from..], if from == 0 then p.cut else term)
  }

  /** The stretch of `p` kept in front of an occurrence at `i`. */
  function Kept(p: Piece, term: string, from: nat, i: nat): Piece
    requires from <= i <= |p.text|
  {
    Piece(p.start + from, p.text[from..i], if from == 0 then p.cut else term)
  }

  lemma {:induction false} RestEnds(p: Piece, term: string, from: nat)
    requires from <= |p.text|
    ensures SameBack(p, Rest(p, term, from))
  {
  }

  lemma {:induction false} KeptFront(p: Piece, term: string, from: nat, i: nat)
    requires from <= i <= |p.text|
    ensures SameFront(Rest(p, term, from), Kept(p, term, from, i))
  {
  }

  lemma {:induction false} EndsOf(head: Piece, tail: seq<Piece>)
    requires tail != []
    ensures ([head] + tail)[0] == head && ([head] + tail)[|[head] + tail| - 1] == tail[|tail| - 1]
  {
  }

  lemma {:induction false} SplitEnds(isWord: char -> bool, p: Piece, term: string, from: nat, i: nat)
    requires term != "" && from <= i <= |p.text|
    ensures var r := SplitFrom(isWord, p, term, from, i);
      SameFront(Rest(p, term, from), r[0]) && SameBack(p, r[|r| - 1])
    decreases |p.text| - i
  {
    if i == |p.text| {
      RestEnds(p, term, from);
    } else if OccursAt(isWord, p.text, term, i) {
      var next := i + |term|;
      SplitEnds(isWord, p, term, next, next);
      KeptFront(p, term, from, i);
      EndsOf(Kept(p, term, from, i), SplitFrom(isWord, p, term, next, next));
    } else {
      SplitEnds(isWord, p, term, from, i + 1);
    }
  }

  lemma {:induction false} SliceWithin(query: string, p: Piece, from: nat, to: nat)
    requires Slice(query, p) && from <= to <= |p.text|
    ensures query[p.start + from..p.start + to] == p.text[from..to]
  {
  }

  lemma {:induction false} KeptBack(isWord: char -> bool, p: Piece, term: string, from: nat, i: nat)
    requires from <= i && OccursAt(isWord, p.text, term, i)
    ensures var a := Kept(p, term, from, i);
      End(a) == p.start + i && (a.text == "" || !isWord(a.text[|a.text| - 1]))
  {
    LastOf(p.text, from, i);
  }

  lemma {:induction false} RestFront(isWord: char -> bool, p: Piece, term: string, i: nat, b: Piece)
    requires term != "" && OccursAt(isWord, p.text, term, i) && SameFront(Rest(p, term, i + |term|), b)
    ensures b.start == p.start + i + |term| && b.cut == term && (b.text == "" || !isWord(b.text[0]))
  {
    FirstOf(p.text, i + |term|);
  }

  lemma {:induction false} KeptGap(isWord: char -> bool, query: string, p: Piece, term: string, from: nat, i: nat, b: Piece)
    requires Slice(query, p) && term != "" && from <= i && OccursAt(isWord, p.text, term, i)
    requires SameFront(Rest(p, term, i + |term|), b)
    ensures Gap(isWord, query, Kept(p, term, from, i), b)
  {
    KeptBack(isWord, p, term, from, i);
    RestFront(isWord, p, term, i, b);
    SliceWithin(query, p, i, i + |term|);
  }

  lemma {:induction false} LastOf(text: string, from: nat, to: nat)
    requires from <= to <= |text|
    ensures |text[from..to]| == to - from
    ensures from < to ==> text[from..to][to - from - 1] == text[to - 1]
  {
  }

  lemma {:induction false} FirstOf(text: string, from: nat)
    requires from <= |text|
    ensures |text[from..]| == |text| - from
    ensures from < |text| ==> text[from..][0] == text[from]
  {
  }

  lemma {:induction false} KeptChain(isWord: char -> bool, query: string, p: Piece, term: string, from: nat, i: nat, tail: seq<Piece>)
    requires Slice(query, p) && term != "" && from <= i && OccursAt(isWord, p.text, term, i)
    requires tail != [] && Chain(isWord, query, tail) && SameFront(Rest(p, term, i + |term|), tail[0])
    ensures Chain(isWord, query, [Kept(p, term, from, i)] + tail)
  {
    KeptGap(isWord, query, p, term, from, i, tail[0]);
    KeptSlice(query, p, term, from, i);
    ChainPrepend(isWord, query, Kept(p, term, from, i), tail);
  }

  lemma {:induction false} KeptSlice(query: string, p: Piece, term: string, from: nat, i: nat)
    requires Slice(query, p) && from <= i <= |p.text|
    ensures Slice(query, Kept(p, term, from, i))
  {
    SliceWithin(query, p, from, i);
  }

  lemma {:induction false} ChainPrepend(isWord: char -> bool, query: string, head: Piece, tail: seq<Piece>)
    requires Slice(query, head) && tail != [] && Chain(isWord, query, tail) && Gap(isWord, query, head, tail[0])
    ensures Chain(isWord, query, [head] + tail)
  {
    ChainConcat(isWord, query, [head], tail);
  }

  lemma {:induction false} RestChain(isWord: char -> bool, query: string, p: Piece, term: string, from: nat)
    requires Slice(query, p) && from <= |p.text|
    ensures Chain(isWord, query, [Rest(p, term, from)])
  {
    SliceWithin(query, p, from, |p.text|);
  }

  /** One more cut in front of a chain of pieces. */
  lemma {:induction false} CutChain(isWord: char -> bool, query: string, p: Piece, term: string, from: nat, i: nat)
    requires Slice(query, p) && term != "" && from <= i && OccursAt(isWord, p.text, term, i)
    requires Chain(isWord, query, SplitFrom(isWord, p, term, i + |term|, i + |term|))
    ensures Chain(isWord, query, [Kept(p, term, from, i)] + SplitFrom(isWord, p, term, i + |term|, i + |term|))
  {
    SplitEnds(isWord, p, term, i + |term|, i + |term|);
    KeptChain(isWord, query, p, term, from, i, SplitFrom(isWord, p, term, i + |term|, i + |term|));
  }

  lemma {:induction false} SplitChain(isWord: char -> bool, query: string, p: Piece, term: string, from: nat, i: nat)
    requires Slice(query, p) && term != "" && from <= i <= |p.text|
    ensures Chain(isWord, query, SplitFrom(isWord, p, term, from, i))
    decreases |p.text| - i
  {
    if i == |p.text| {
      RestChain(isWord, query, p, term, from);
    } else if OccursAt(isWord, p.text, term, i) {
      SplitChain(isWord, query, p, term, i + |term|, i + |term|);
      CutChain(isWord, query, p, term, from, i);
    } else {
      SplitChain(isWord, query, p, term, from, i + 1);
    }
  }

  lemma {:induction false} ChainsMeet(isWord: char -> bool, query: string, p: Piece, q: Piece, head: seq<Piece>, tail: seq<Piece>)
    requires Gap(isWord, query, p, q) && head != [] && tail != []
    requires Chain(isWord, query, head) && SameBack(p, head[|head| - 1])
    requires Chain(isWord, query, tail) && SameFront(q, tail[0])
    ensures Chain(isWord, query, head + tail)
  {
    assert Gap(isWord, query, head[|head| - 1], tail[0]);
    ChainConcat(isWord, query, head, tail);
  }

  lemma {:induction false} ChainTail(isWord: char -> bool, query: string, pieces: seq<Piece>)
    requires |pieces| > 1 && Chain(isWord, query, pieces)
    ensures Chain(isWord, query, pieces[1..]) && Gap(isWord, query, pieces[0], pieces[1])
  {
    assert forall k :: 1 <= k < |pieces[1..]| ==> Gap(isWord, query, pieces[k], pieces[k + 1]);
    assert Gap(isWord, query, pieces[1 - 1], pieces[1]);
  }

  lemma {:induction false} SplitAllChain(isWord: char -> bool, query: string, pieces: seq<Piece>, term: string)
    requires pieces != [] && Chain(isWord, query, pieces) && term != ""
    ensures var r := SplitAll(isWord, pieces, term);
      && Chain(isWord, query, r)
      && SameFront(pieces[0], r[0])
      && SameBack(pieces[|pieces| - 1], r[|r| - 1])
  {
    var p, rest := pieces[0], pieces[1..];
    var head, tail := SplitFrom(isWord, p, term, 0, 0), SplitAll(isWord, rest, term);
    SplitChain(isWord, query, p, term, 0, 0);
    SplitEnds(isWord, p, term, 0, 0);
    assert Rest(p, term, 0) == p;
    if rest == [] {
      assert head + tail == head;
    } else {
      ChainTail(isWord, query, pieces);
      SplitAllChain(isWord, query, rest, term);
      ChainsMeet(isWord, query, p, rest[0], head, tail);
    }
  }

  lemma {:induction false} PiecesLayout(isWord: char -> bool, query: string, terms: seq<string>)
    requires Phrases(terms)
    ensures Layout(isWord, query, Pieces(isWord, query, terms))
  {
    if terms != [] {
      var n := |terms| - 1;
      PiecesLayout(isWord, query, terms[..n]);
      SplitAllChain(isWord, query, Pieces(isWord, query, terms[..n]), terms[n]);
    }
  }

  // ----- Spans -----

  /** Consumed spans lie one behind the other: no two share a position of the query. */
  lemma {:induction false} SpansDisjoint(isWord: char -> bool, query: string, pieces: seq<Piece>, j: nat, k: nat)
    requires Chain(isWord, query, pieces) && 1 <= j < k < |pieces|
    ensures End(pieces[j - 1]) < pieces[j].start <= End(pieces[k - 1]) < pieces[k].start
  {
    assert Gap(isWord, query, pieces[j - 1], pieces[j]) && Gap(isWord, query, pieces[k - 1], pieces[k]);
    if j < k - 1 {
      SpansDisjoint(isWord, query, pieces, j, k - 1);
    }
  }

  function Cuts(pieces: seq<Piece>): set<string> {
    set k | 0 <= k < |pieces| :: pieces[k].cut
  }

  lemma {:induction false} CutsConcat(a: seq<Piece>, b: seq<Piece>)
    ensures Cuts(a + b) == Cuts(a) + Cuts(b)
  {
    forall c ensures c in Cuts(a + b) <==> c in Cuts(a) + Cuts(b) {
      if c in Cuts(a) {
        var k :| 0 <= k < |a| && a[k].cut == c;
        assert (a + b)[k].cut == c;
      }
      if c in Cuts(b) {
        var k :| 0 <= k < |b| && b[k].cut == c;
        assert (a + b)[|a| + k].cut == c;
      }
    }
  }

  predicate OccursFrom(isWord: char -> bool, text: string, term: string, i: nat) {
    exists j :: i <= j <= |text| && OccursAt(isWord, text, term, j)
  }

  lemma {:induction false} OccursFromStep(isWord: char -> bool, text: string, term: string, i: nat)
    requires term != "" && i <= |text|
    ensures OccursFrom(isWord, text, term, i)
      <==> i < |text| && (OccursAt(isWord, text, term, i) || OccursFrom(isWord, text, term, i + 1))
  {
  }

  /** Behind a first cut, every piece stands behind `term`. */
  lemma {:induction false} CutsAfterCut(isWord: char -> bool, p: Piece, term: string, from: nat, i: nat)
    requires term != "" && 0 < from <= i <= |p.text|
    ensures Cuts(SplitFrom(isWord, p, term, from, i)) == {term}
    decreases |p.text| - i
  {
    if i == |p.text| {
      CutsOfOne(Rest(p, term, from));
    } else if OccursAt(isWord, p.text, term, i) {
      var next := i + |term|;
      CutsAfterCut(isWord, p, term, next, next);
      CutsPrepend(Kept(p, term, from, i), SplitFrom(isWord, p, term, next, next));
    } else {
      CutsAfterCut(isWord, p, term, from, i + 1);
    }
  }

  lemma {:induction false} SplitCuts(isWord: char -> bool, p: Piece, term: string, i: nat)
    requires term != "" && i <= |p.text|
    ensures Cuts(SplitFrom(isWord, p, term, 0, i)) == {p.cut} + (if OccursFrom(isWord, p.text, term, i) then {term} else {})
    decreases |p.text| - i
  {
    OccursFromStep(isWord, p.text, term, i);
    if i == |p.text| {
      CutsOfOne(Rest(p, term, 0));
    } else if OccursAt(isWord, p.text, term, i) {
      var next := i + |term|;
      CutsAfterCut(isWord, p, term, next, next);
      CutsPrepend(Kept(p, term, 0, i), SplitFrom(isWord, p, term, next, next));
    } else {
      SplitCuts(isWord, p, term, i + 1);
    }
  }

  lemma {:induction false} CutsPrepend(p: Piece, tail: seq<Piece>)
    ensures Cuts([p] + tail) == {p.cut} + Cuts(tail)
  {
    CutsOfOne(p);
    CutsConcat([p], tail);
  }

  lemma {:induction false} CutsOfOne(p: Piece)
    ensures Cuts([p]) == {p.cut}
  {
    assert [p][0].cut in Cuts([p]);
  }

  lemma {:induction false} JoinOccurs(isWord: char -> bool, pieces: seq<Piece>, term: string)
    requires pieces != [] && Phrase(term) && !isWord(' ')
    ensures Occurs(isWord, Join(pieces), term) <==> exists k :: 0 <= k < |pieces| && Occurs(isWord, pieces[k].text, term)
  {
    if |pieces| > 1 {
      var p, rest := pieces[0].text, Join(pieces[1..]);
      JoinOccurs(isWord, pieces[1..], term);
      TwoPartsOccur(isWord, p, rest, term);
      if k :| 0 <= k < |pieces[1..]| && Occurs(isWord, pieces[1..][k].text, term) {
        assert Occurs(isWord, pieces[k + 1].text, term);
      }
      if k :| 0 <= k < |pieces| && Occurs(isWord, pieces[k].text, term) {
        if k > 0 {
          assert Occurs(isWord, pieces[1..][k - 1].text, term);
        }
      }
    }
  }

  lemma {:induction false} TwoPartsOccur(isWord: char -> bool, p: string, rest: string, term: string)
    requires Phrase(term) && !isWord(' ')
    ensures Occurs(isWord, p + CUT + rest, term) <==> Occurs(isWord, p, term) || Occurs(isWord, rest, term)
  {
    var text := p + CUT + rest;
    if i :| 0 <= i <= |p| && OccursAt(isWord, p, term, i) {
      OccursAcrossCut(isWord, p, rest, term, i);
    }
    if i :| 0 <= i <= |rest| && OccursAt(isWord, rest, term, i) {
      OccursAcrossCut(isWord, p, rest, term, i + |p| + 3);
      assert OccursAt(isWord, text, term, i + |p| + 3);
    }
    if i :| 0 <= i <= |text| && OccursAt(isWord, text, term, i) {
      OccursAcrossCut(isWord, p, rest, term, i);
    }
  }

  predicate OccursIn(isWord: char -> bool, pieces: seq<Piece>, term: string) {
    exists k :: 0 <= k < |pieces| && Occurs(isWord, pieces[k].text, term)
  }

  lemma {:induction false} OccursInCons(isWord: char -> bool, p: Piece, rest: seq<Piece>, term: string)
    ensures OccursIn(isWord, [p] + rest, term) <==> Occurs(isWord, p.text, term) || OccursIn(isWord, rest, term)
  {
    var all := [p] + rest;
    if Occurs(isWord, p.text, term) {
      assert Occurs(isWord, all[0].text, term);
    }
    if k :| 0 <= k < |rest| && Occurs(isWord, rest[k].text, term) {
      assert Occurs(isWord, all[k + 1].text, term);
    }
  }

  lemma {:induction false} SplitAllCuts(isWord: char -> bool, pieces: seq<Piece>, term: string)
    requires term != ""
    ensures Cuts(SplitAll(isWord, pieces, term)) == Cuts(pieces) + (if OccursIn(isWord, pieces, term) then {term} else {})
  {
    if pieces == [] {
      assert Cuts(pieces) == {} && SplitAll(isWord, pieces, term) == [];
    } else {
      var p, rest := pieces[0], pieces[1..];
      assert pieces == [p] + rest;
      SplitAllCuts(isWord, rest, term);
      OccursInCons(isWord, p, rest, term);
      CutsPrepend(p, rest);
      WholeSplitCuts(isWord, p, term);
      CutsConcat(SplitFrom(isWord, p, term, 0, 0), SplitAll(isWord, rest, term));
    }
  }

  lemma {:induction false} WholeSplitCuts(isWord: char -> bool, p: Piece, term: string)
    requires term != ""
    ensures Cuts(SplitFrom(isWord, p, term, 0, 0)) == {p.cut} + (if Occurs(isWord, p.text, term) then {term} else {})
  {
    SplitCuts(isWord, p, term, 0);
    assert OccursFrom(isWord, p.text, term, 0) <==> Occurs(isWord, p.text, term);
  }

  /** A phrase is reported exactly when some span of the query was consumed for it. */
  lemma {:induction false} ReportedIffConsumed(isWord: char -> bool, query: string, terms: seq<string>)
    requires Phrases(terms) && !isWord(' ')
    ensures Cuts(Pieces(isWord, query, terms)) == {""} + (set t | t in Matched(isWord, query, terms))
  {
    if terms == [] {
      assert Pieces(isWord, query, terms)[0].cut == "";
    } else {
      var n := |terms| - 1;
      ReportedIffConsumed(isWord, query, terms[..n]);
      var before := Pieces(isWord, query, terms[..n]);
      SplitAllCuts(isWord, before, terms[n]);
      JoinOccurs(isWord, before, terms[n]);
    }
  }

  // ----- Completeness -----

  /** The occurrence at `s` shares no position with any consumed span. */
  predicate Free(pieces: seq<Piece>, s: nat, length: nat) {
    forall k :: 1 <= k < |pieces| ==> s + length <= End(pieces[k - 1]) || pieces[k].start <= s
  }

  lemma {:induction false} Locate(isWord: char -> bool, query: string, pieces: seq<Piece>, s: nat, length: nat) returns (k: nat)
    requires pieces != [] && Chain(isWord, query, pieces) && length > 0 && Free(pieces, s, length)
    requires pieces[0].start <= s && s + length <= End(pieces[|pieces| - 1])
    ensures k < |pieces| && pieces[k].start <= s && s + length <= End(pieces[k])
  {
    var n := |pieces| - 1;
    if n == 0 || pieces[n].start <= s {
      k := n;
    } else {
      assert Gap(isWord, query, pieces[n - 1], pieces[n]);
      k := Locate(isWord, query, pieces[..n], s, length);
    }
  }

  lemma {:induction false} OccursInPiece(isWord: char -> bool, query: string, p: Piece, term: string, s: nat)
    requires Slice(query, p) && OccursAt(isWord, query, term, s) && p.start <= s && s + |term| <= End(p)
    ensures OccursAt(isWord, p.text, term, s - p.start)
  {
    var i := s - p.start;
    SliceWithin(query, p, i, i + |term|);
    assert i > 0 ==> p.text[i - 1] == query[s - 1];
    assert i + |term| < |p.text| ==> p.text[i + |term|] == query[s + |term|];
  }

  /** Every whole-phrase occurrence that earlier phrases left untouched is found when its turn comes. */
  lemma {:induction false} FreeOccurrenceFound(isWord: char -> bool, query: string, terms: seq<string>, term: string, s: nat)
    requires Phrases(terms) && Phrase(term) && !isWord(' ')
    requires OccursAt(isWord, query, term, s) && Free(Pieces(isWord, query, terms), s, |term|)
    ensures Occurs(isWord, Join(Pieces(isWord, query, terms)), term)
  {
    var pieces := Pieces(isWord, query, terms);
    PiecesLayout(isWord, query, terms);
    var k := Locate(isWord, query, pieces, s, |term|);
    var p := pieces[k];
    assert Slice(query, p);
    OccursInPiece(isWord, query, p, term, s);
    JoinOccurs(isWord, pieces, term);
  }

  /** What later phrases do cannot take back a report. */
  lemma {:induction false} ReportStays(isWord: char -> bool, query: string, before: seq<string>, after: seq<string>)
    requires Phrases(before) && Phrases(after)
    ensures Matched(isWord, query, before) <= Matched(isWord, query, before + after)
  {
    if after == [] {
      assert before + after == before;
    } else {
      var n := |after| - 1;
      ReportStays(isWord, query, before, after[..n]);
      assert before + after == before + after[..n] + [after[n]];
      MatchedPush(isWord, query, before + after[..n], after[n]);
    }
  }

  predicate SpansApart(pieces: seq<Piece>, j: int, k: int)
    requires 1 <= j < |pieces| && 1 <= k < |pieces|
  {
    pieces[j].start <= End(pieces[k - 1])
  }

  /** `term` is a whole phrase of the query and the phrases before it consumed none of that stretch. */
  predicate LeftFor(isWord: char -> bool, query: string, before: seq<string>, term: string)
    requires Phrases(before)
  {
    exists s: nat :: s <= |query| && OccursAt(isWord, query, term, s) && Free(Pieces(isWord, query, before), s, |term|)
  }

  /**
   * The consuming matcher: its spans are pairwise disjoint stretches of the query, bounded on both
   * sides by an end of the query, a non-word character or another consumed span.
   */
  lemma {:induction false} ConsumedSpans(isWord: char -> bool, query: string, terms: seq<string>)
    requires Phrases(terms)
    ensures var pieces := Pieces(isWord, query, terms);
      && Layout(isWord, query, pieces)
      && forall j, k :: 1 <= j < k < |pieces| ==> SpansApart(pieces, j, k)
  {
    var pieces := Pieces(isWord, query, terms);
    PiecesLayout(isWord, query, terms);
    forall j, k | 1 <= j < k < |pieces| ensures SpansApart(pieces, j, k) {
      SpansDisjoint(isWord, query, pieces, j, k);
    }
  }

  /** A phrase is reported if and only if a span of the query was consumed for it. */
  lemma {:induction false} ReportedHaveSpans(isWord: char -> bool, query: string, terms: seq<string>, t: string)
    requires Phrases(terms) && !isWord(' ')
    ensures var pieces := Pieces(isWord, query, terms);
      t in Matched(isWord, query, terms) <==> exists k :: 1 <= k < |pieces| && pieces[k].cut == t
  {
    var pieces := Pieces(isWord, query, terms);
    PiecesLayout(isWord, query, terms);
    ReportedIffConsumed(isWord, query, terms);
    if t in Matched(isWord, query, terms) {
      assert t in Cuts(pieces);
      MatchedFrom(isWord, query, terms, t);
      FirstUncut(isWord, query, terms);
    }
    if k :| 1 <= k < |pieces| && pieces[k].cut == t {
      assert Gap(isWord, query, pieces[k - 1], pieces[k]) && pieces[k].cut in Cuts(pieces);
    }
  }

  lemma {:induction false} MatchedFrom(isWord: char -> bool, query: string, terms: seq<string>, t: string)
    requires Phrases(terms) && t in Matched(isWord, query, terms)
    ensures t in terms && t != ""
  {
    var n := |terms| - 1;
    if t in Matched(isWord, query, terms[..n]) {
      MatchedFrom(isWord, query, terms[..n], t);
    }
  }

  lemma {:induction false} FirstUncut(isWord: char -> bool, query: string, terms: seq<string>)
    requires Phrases(terms)
    ensures Pieces(isWord, query, terms)[0].cut == ""
  {
    if terms != [] {
      var n := |terms| - 1;
      FirstUncut(isWord, query, terms[..n]);
      PiecesLayout(isWord, query, terms[..n]);
      SplitAllChain(isWord, query, Pieces(isWord, query, terms[..n]), terms[n]);
    }
  }

  /** A dictionary phrase with an occurrence clear of the spans consumed before its turn is reported. */
  lemma {:induction false} LeftPhrasesReported(
      isWord: char -> bool, query: string, before: seq<string>, term: string, after: seq<string>)
    requires Phrases(before) && Phrase(term) && Phrases(after) && !isWord(' ')
    requires LeftFor(isWord, query, before, term)
    ensures term in Matched(isWord, query, before + [term] + after)
  {
    var upTo := before + [term];
    var reported := Matched(isWord, query, upTo);
    assert term in reported by {
      LeftPhraseFound(isWord, query, before, term);
      MatchedPush(isWord, query, before, term);
    }
    var k :| 0 <= k < |reported| && reported[k] == term;
    ReportStays(isWord, query, upTo, after);
    assert Matched(isWord, query, upTo + after)[k] == term;
  }

  lemma {:induction false} LeftPhraseFound(isWord: char -> bool, query: string, before: seq<string>, term: string)
    requires Phrases(before) && Phrase(term) && !isWord(' ') && LeftFor(isWord, query, before, term)
    ensures Occurs(isWord, Join(Pieces(isWord, query, before)), term)
  {
    var s: nat :| s <= |query| && OccursAt(isWord, query, term, s) && Free(Pieces(isWord, query, before), s, |term|);
    FreeOccurrenceFound(isWord, query, before, term, s);
  }

  lemma {:induction false} MatchedPush(isWord: char -> bool, query: string, before: seq<string>, term: string)
    requires Phrases(before) && Phrase(term)
    ensures Matched(isWord, query, before + [term]) == Matched(isWord, query, before)
      + (if Occurs(isWord, Join(Pieces(isWord, query, before)), term) then [term] else [])
  {
    assert (before + [term])[..|before|] == before;
  }

  // ----- Whole words of the original query -----

  /** The phrase starts and ends with a word character. */
  predicate Worded(isWord: char -> bool, term: string) {
    term != "" && isWord(term[0]) && isWord(term[|term| - 1])
  }

  /** Where a piece meets a consumed span, it does not show a word character. */
  predicate EdgesClear(isWord: char -> bool, query: string, p: Piece) {
    p.text != "" ==>
      && (p.start == 0 || !isWord(p.text[0]))
      && (End(p) == |query| || !isWord(p.text[|p.text| - 1]))
  }

  lemma {:induction false} LayoutEdges(isWord: char -> bool, query: string, pieces: seq<Piece>, k: nat)
    requires Layout(isWord, query, pieces) && k < |pieces|
    ensures Slice(query, pieces[k]) && EdgesClear(isWord, query, pieces[k])
  {
    if k > 0 {
      assert Gap(isWord, query, pieces[k - 1], pieces[k]);
    }
    if k < |pieces| - 1 {
      assert Gap(isWord, query, pieces[(k + 1) - 1], pieces[k + 1]);
    }
  }

  /** A phrase with word characters at both ends cannot lean on a consumed span. */
  lemma {:induction false} WholeInQuery(isWord: char -> bool, query: string, p: Piece, term: string, i: nat)
    requires Slice(query, p) && EdgesClear(isWord, query, p)
    requires Worded(isWord, term) && OccursAt(isWord, p.text, term, i)
    ensures OccursAt(isWord, query, term, p.start + i)
  {
    var n := |term|;
    SliceWithin(query, p, i, i + n);
    assert p.text[i] == p.text[i..i + n][0] && p.text[i + n - 1] == p.text[i..i + n][n - 1];
    assert i > 0 ==> query[p.start + i - 1] == p.text[i - 1];
    assert i + n < |p.text| ==> query[p.start + i + n] == p.text[i + n];
  }

  lemma {:induction false} MatchedAtTurn(isWord: char -> bool, query: string, terms: seq<string>, t: string) returns (k: nat)
    requires Phrases(terms) && t in Matched(isWord, query, terms)
    ensures k < |terms| && terms[k] == t && Occurs(isWord, Join(Pieces(isWord, query, terms[..k])), t)
  {
    var n := |terms| - 1;
    if t in Matched(isWord, query, terms[..n]) {
      k := MatchedAtTurn(isWord, query, terms[..n], t);
      assert terms[..n][..k] == terms[..k];
    } else {
      k := n;
    }
  }

  /**
   * A reported phrase that starts and ends with a word character is a whole phrase of the query
   * itself, whatever else the dictionary holds.
   */
  lemma {:induction false} WordedReportOccurs(isWord: char -> bool, query: string, terms: seq<string>, t: string)
    requires Phrases(terms) && !isWord(' ') && Worded(isWord, t) && t in Matched(isWord, query, terms)
    ensures Occurs(isWord, query, t)
  {
    var n := MatchedAtTurn(isWord, query, terms, t);
    var pieces := Pieces(isWord, query, terms[..n]);
    PiecesLayout(isWord, query, terms[..n]);
    JoinOccurs(isWord, pieces, t);
    var k :| 0 <= k < |pieces| && Occurs(isWord, pieces[k].text, t);
    var i :| 0 <= i <= |pieces[k].text| && OccursAt(isWord, pieces[k].text, t, i);
    LayoutEdges(isWord, query, pieces, k);
    WholeInQuery(isWord, query, pieces[k], t, i);
  }

  // ----- When a report need not be a whole phrase -----

  predicate AllWord(isWord: char -> bool, s: string) {
    forall i :: 0 <= i < |s| ==> isWord(s[i])
  }

  lemma {:induction false} NothingSplit(isWord: char -> bool, p: Piece, term: string, from: nat, i: nat)
    requires term != "" && from <= i && from <= |p.text|
    requires forall j :: i <= j < |p.text| ==> !OccursAt(isWord, p.text, term, j)
    ensures SplitFrom(isWord, p, term, from, i) == [Rest(p, term, from)]
    decreases |p.text| - i
  {
    if i < |p.text| {
      NothingSplit(isWord, p, term, from, i + 1);
    }
  }

  lemma {:induction false} SplitAtEnd(isWord: char -> bool, p: Piece, term: string, at: nat, i: nat)
    requires term != "" && i <= at && at + |term| == |p.text| && OccursAt(isWord, p.text, term, at)
    requires forall j :: i <= j < at ==> !OccursAt(isWord, p.text, term, j)
    ensures SplitFrom(isWord, p, term, 0, i) == [Kept(p, term, 0, at), Rest(p, term, |p.text|)]
    decreases at - i
  {
    if i < at {
      SplitAtEnd(isWord, p, term, at, i + 1);
    } else {
      NothingSplit(isWord, p, term, |p.text|, |p.text|);
    }
  }

  lemma {:induction false} SplitAtStart(isWord: char -> bool, p: Piece, term: string)
    requires term != "" && OccursAt(isWord, p.text, term, 0)
    requires forall j :: 0 < j < |p.text| ==> !OccursAt(isWord, p.text, term, j)
    ensures SplitFrom(isWord, p, term, 0, 0) == [Kept(p, term, 0, 0), Rest(p, term, |term|)]
  {
    NothingSplit(isWord, p, term, |term|, |term|);
  }

  lemma {:induction false} OneConsumed(isWord: char -> bool, query: string, first: string, pieces: seq<Piece>)
    requires Phrase(first) && Phrases([first]) && Occurs(isWord, query, first)
    requires pieces == SplitFrom(isWord, Piece(0, query, ""), first, 0, 0)
    ensures Pieces(isWord, query, [first]) == pieces && Matched(isWord, query, [first]) == [first]
  {
    SplitOnePiece(isWord, Piece(0, query, ""), first);
    assert [first][..0] == [];
    MatchedPush(isWord, query, [], first);
    assert [] + [first] == [first];
  }

  lemma {:induction false} ReportedSecond(isWord: char -> bool, query: string, first: string, t: string, k: nat)
    requires Phrase(first) && Phrase(t) && !isWord(' ') && Occurs(isWord, query, first)
    requires var pieces := SplitFrom(isWord, Piece(0, query, ""), first, 0, 0);
      k < |pieces| && pieces[k].text == t
    ensures Matched(isWord, query, [first, t]) == [first, t]
  {
    var pieces := SplitFrom(isWord, Piece(0, query, ""), first, 0, 0);
    OneConsumed(isWord, query, first, pieces);
    SecondReported(isWord, query, first, t, pieces, k);
  }

  lemma {:induction false} SecondReported(isWord: char -> bool, query: string, first: string, t: string, pieces: seq<Piece>, k: nat)
    requires Phrase(first) && Phrase(t) && !isWord(' ') && k < |pieces| && pieces[k].text == t
    requires Pieces(isWord, query, [first]) == pieces && Matched(isWord, query, [first]) == [first]
    ensures Matched(isWord, query, [first, t]) == [first, t]
  {
    OccursItself(isWord, t);
    JoinOccurs(isWord, pieces, t);
    MatchedPush(isWord, query, [first], t);
    assert [first] + [t] == [first, t];
  }

  /** `u` stands in `t + u` at the end and nowhere before: any earlier stretch shows the last character of `t`. */
  lemma {:induction false} OnlyAtEnd(isWord: char -> bool, t: string, u: string, j: nat)
    requires t != "" && !isWord(t[|t| - 1]) && AllWord(isWord, u) && |u| >= |t| && j < |t|
    ensures !OccursAt(isWord, t + u, u, j)
  {
    var i := |t| - 1 - j;
    assert (t + u)[j..j + |u|][i] == t[|t| - 1];
  }

  /** `t` is no whole phrase of `t + u`: in front it runs into `u`, further on its last character is missing. */
  lemma {:induction false} NotWholeBefore(isWord: char -> bool, t: string, u: string)
    requires t != "" && u != "" && !isWord(t[|t| - 1]) && AllWord(isWord, u)
    ensures !Occurs(isWord, t + u, t)
  {
    var text := t + u;
    forall j | 0 <= j <= |text| ensures !OccursAt(isWord, text, t, j) {
      if j == 0 {
        assert text[|t|] == u[0];
      } else if j + |t| <= |text| {
        assert text[j..j + |t|][|t| - 1] == u[j - 1];
      }
    }
  }

  lemma {:induction false} OnlyAtStart(isWord: char -> bool, t: string, u: string, j: nat)
    requires t != "" && !isWord(t[0]) && AllWord(isWord, u) && |u| >= |t| && 0 < j < |u + t|
    ensures !OccursAt(isWord, u + t, u, j)
  {
    if j + |u| <= |u + t| {
      assert (u + t)[j..j + |u|][|u| - j] == t[0];
    }
  }

  lemma {:induction false} NotWholeBehind(isWord: char -> bool, t: string, u: string)
    requires t != "" && u != "" && !isWord(t[0]) && AllWord(isWord, u)
    ensures !Occurs(isWord, u + t, t)
  {
    var text := u + t;
    forall j | 0 <= j <= |text| ensures !OccursAt(isWord, text, t, j) {
      if j < |u| {
        assert text[j] == u[j];
        assert j + |t| <= |text| ==> text[j..j + |t|][0] == u[j];
      } else if j == |u| {
        assert text[j - 1] == u[|u| - 1];
      }
    }
  }

  /**
   * A phrase that ends in a non-word character is reported where it runs straight into a word, once
   * a phrase at least as long has consumed that word.
   */
  lemma {:induction false} CutBoundsEnd(isWord: char -> bool, t: string, u: string)
    requires Phrase(t) && Phrase(u) && !isWord(' ') && AllWord(isWord, u) && |u| >= |t| && !isWord(t[|t| - 1])
    ensures Matched(isWord, t + u, [u, t]) == [u, t] && !Occurs(isWord, t + u, t)
  {
    CutFromEnd(isWord, t, u);
    ReportedSecond(isWord, t + u, u, t, 0);
    NotWholeBefore(isWord, t, u);
  }

  /** The same at the other end. */
  lemma {:induction false} CutBoundsStart(isWord: char -> bool, t: string, u: string)
    requires Phrase(t) && Phrase(u) && !isWord(' ') && AllWord(isWord, u) && |u| >= |t| && !isWord(t[0])
    ensures Matched(isWord, u + t, [u, t]) == [u, t] && !Occurs(isWord, u + t, t)
  {
    var p := Piece(0, u + t, "");
    assert OccursAt(isWord, u + t, u, 0) by {
      assert (u + t)[0..|u|] == u;
    }
    forall j | 0 < j < |p.text| ensures !OccursAt(isWord, p.text, u, j) {
      OnlyAtStart(isWord, t, u, j);
    }
    SplitAtStart(isWord, p, u);
    assert (u + t)[|u|..] == t;
    ReportedSecond(isWord, u + t, u, t, 1);
    NotWholeBehind(isWord, t, u);
  }

  // ----- The same among other phrases -----

  predicate NowhereIn(isWord: char -> bool, pieces: seq<Piece>, term: string) {
    forall k :: 0 <= k < |pieces| ==> !Occurs(isWord, pieces[k].text, term)
  }

  lemma {:induction false} SplitNone(isWord: char -> bool, pieces: seq<Piece>, term: string)
    requires term != "" && NowhereIn(isWord, pieces, term)
    ensures SplitAll(isWord, pieces, term) == pieces
  {
    if pieces != [] {
      var p, rest := pieces[0], pieces[1..];
      NothingSplit(isWord, p, term, 0, 0);
      assert Rest(p, term, 0) == p;
      SplitNone(isWord, rest, term);
      assert [p] + rest == pieces;
    }
  }

  /** Phrases that occur in no piece change nothing. */
  lemma {:induction false} NothingConsumed(
      isWord: char -> bool, query: string, before: seq<string>, more: seq<string>, pieces: seq<Piece>)
    requires Phrases(before) && Phrases(more) && pieces == Pieces(isWord, query, before)
    requires forall i :: 0 <= i < |more| ==> NowhereIn(isWord, pieces, more[i])
    ensures Pieces(isWord, query, before + more) == pieces
  {
    if more == [] {
      assert before + more == before;
    } else {
      var n := |more| - 1;
      NothingConsumed(isWord, query, before, more[..n], pieces);
      assert before + more == before + more[..n] + [more[n]];
      PiecesPush(isWord, query, before + more[..n], more[n]);
      SplitNone(isWord, pieces, more[n]);
    }
  }

  lemma {:induction false} PiecesPush(isWord: char -> bool, query: string, before: seq<string>, term: string)
    requires Phrases(before) && Phrase(term)
    ensures Pieces(isWord, query, before + [term]) == SplitAll(isWord, Pieces(isWord, query, before), term)
  {
    assert (before + [term])[..|before|] == before;
  }

  lemma {:induction false} ReportedAtTurn(isWord: char -> bool, query: string, before: seq<string>, term: string, k: nat)
    requires Phrases(before) && Phrase(term) && !isWord(' ')
    requires k < |Pieces(isWord, query, before)| && Occurs(isWord, Pieces(isWord, query, before)[k].text, term)
    ensures term in Matched(isWord, query, before + [term])
  {
    JoinOccurs(isWord, Pieces(isWord, query, before), term);
    MatchedPush(isWord, query, before, term);
  }

  lemma {:induction false} OccursItself(isWord: char -> bool, t: string)
    ensures Occurs(isWord, t, t)
  {
    assert t[0..|t|] == t && OccursAt(isWord, t, t, 0);
  }

  lemma {:induction false} StaysReported(isWord: char -> bool, query: string, before: seq<string>, after: seq<string>, t: string)
    requires Phrases(before) && Phrases(after) && t in Matched(isWord, query, before)
    ensures t in Matched(isWord, query, before + after)
  {
    var reported := Matched(isWord, query, before);
    var k :| 0 <= k < |reported| && reported[k] == t;
    ReportStays(isWord, query, before, after);
    assert Matched(isWord, query, before + after)[k] == t;
  }

  /** What is left once `u` has been cut from the end of `t + u`. */
  function LeftOf(t: string, u: string): seq<Piece> {
    [Piece(0, t, ""), Piece(|t + u|, "", u)]
  }

  lemma {:induction false} StandsAtEnd(isWord: char -> bool, t: string, u: string)
    requires t != "" && !isWord(t[|t| - 1])
    ensures OccursAt(isWord, t + u, u, |t|)
    ensures (t + u)[0..|t|] == t && (t + u)[|t + u|..] == ""
  {
    assert (t + u)[|t|..|t| + |u|] == u;
  }

  lemma {:induction false} CutFromEnd(isWord: char -> bool, t: string, u: string)
    requires t != "" && u != "" && AllWord(isWord, u) && |u| >= |t| && !isWord(t[|t| - 1])
    ensures OccursAt(isWord, t + u, u, |t|)
    ensures SplitFrom(isWord, Piece(0, t + u, ""), u, 0, 0) == LeftOf(t, u)
  {
    forall j | 0 <= j < |t| ensures !OccursAt(isWord, t + u, u, j) {
      OnlyAtEnd(isWord, t, u, j);
    }
    StandsAtEnd(isWord, t, u);
    SplitAtEnd(isWord, Piece(0, t + u, ""), u, |t|, 0);
  }

  lemma {:induction false} NothingInEmpty(isWord: char -> bool, term: string)
    requires term != ""
    ensures !Occurs(isWord, "", term)
  {
  }

  lemma {:induction false} CutAtEnd(isWord: char -> bool, t: string, u: string, a: seq<string>, b: seq<string>)
    requires Phrase(t) && Phrase(u) && AllWord(isWord, u) && |u| >= |t| && !isWord(t[|t| - 1]) && Phrases(a) && Phrases(b)
    requires forall i :: 0 <= i < |a| ==> !Occurs(isWord, t + u, a[i])
    requires forall i :: 0 <= i < |b| ==> !Occurs(isWord, t, b[i])
    ensures Pieces(isWord, t + u, a) == [Piece(0, t + u, "")]
    ensures Pieces(isWord, t + u, a + [u] + b) == LeftOf(t, u)
  {
    var whole := [Piece(0, t + u, "")];
    NothingConsumed(isWord, t + u, [], a, whole);
    assert [] + a == a;
    PiecesPush(isWord, t + u, a, u);
    SplitOnePiece(isWord, whole[0], u);
    CutFromEnd(isWord, t, u);
    forall i | 0 <= i < |b| ensures NowhereIn(isWord, LeftOf(t, u), b[i]) {
      NothingInEmpty(isWord, b[i]);
    }
    NothingConsumed(isWord, t + u, a + [u], b, LeftOf(t, u));
  }

  /**
   * The cut bounds `t` in every search order in which `u` comes first, as long as no phrase before
   * `u` occurs in the query and none between the two occurs in `t` alone.
   */
  lemma {:induction false} CutBoundsEndAmong(
      isWord: char -> bool, t: string, u: string, a: seq<string>, b: seq<string>, c: seq<string>)
    requires Phrase(t) && Phrase(u) && AllWord(isWord, u) && |u| >= |t| && !isWord(t[|t| - 1]) && !isWord(' ')
    requires Phrases(a) && Phrases(b) && Phrases(c)
    requires forall i :: 0 <= i < |a| ==> !Occurs(isWord, t + u, a[i])
    requires forall i :: 0 <= i < |b| ==> !Occurs(isWord, t, b[i])
    ensures var reported := Matched(isWord, t + u, a + [u] + b + [t] + c);
      u in reported && t in reported && !Occurs(isWord, t + u, t)
  {
    CutAtEnd(isWord, t, u, a, b);
    CutFromEnd(isWord, t, u);
    OccursItself(isWord, t);
    ReportedAround(isWord, t + u, a, u, b + [t] + c);
    assert a + [u] + (b + [t] + c) == a + [u] + b + [t] + c;
    ReportedAround(isWord, t + u, a + [u] + b, t, c);
    NotWholeBefore(isWord, t, u);
  }

  lemma {:induction false} ReportedAround(isWord: char -> bool, query: string, before: seq<string>, term: string, after: seq<string>)
    requires Phrases(before) && Phrase(term) && Phrases(after) && !isWord(' ')
    requires Occurs(isWord, Pieces(isWord, query, before)[0].text, term)
    ensures term in Matched(isWord, query, before + [term] + after)
  {
    ReportedAtTurn(isWord, query, before, term, 0);
    StaysReported(isWord, query, before + [term], after, term);
  }

  predicate LongestFirst(terms: seq<string>) {
    forall i, j :: 0 <= i < j < |terms| ==> |terms[i]| >= |terms[j]|
  }

  /** With any dictionary in its search order, a report of `t` is a whole phrase of the query. */
  ghost predicate AlwaysWhole(isWord: char -> bool, t: string) {
    forall query, terms ::
      Phrases(terms) && LongestFirst(terms) && t in Matched(isWord, query, terms) ==> Occurs(isWord, query, t)
  }

  /**
   * Reports of a phrase are whole phrases of the query for every dictionary if and only if the phrase
   * starts and ends with a word character. `c` is any word character.
   */
  lemma {:induction false} AlwaysWholeIffWorded(isWord: char -> bool, t: string, c: char)
    requires Phrase(t) && isWord(c) && !isWord(' ') && !isWord('|')
    ensures AlwaysWhole(isWord, t) <==> Worded(isWord, t)
  {
    var u := seq(|t|, _ => c);
    assert AllWord(isWord, u) && Phrase(u);
    if Worded(isWord, t) {
      forall query, terms | Phrases(terms) && LongestFirst(terms) && t in Matched(isWord, query, terms)
        ensures Occurs(isWord, query, t)
      {
        WordedReportOccurs(isWord, query, terms, t);
      }
    } else if !isWord(t[|t| - 1]) {
      CutBoundsEnd(isWord, t, u);
      assert t in Matched(isWord, t + u, [u, t]);
    } else {
      CutBoundsStart(isWord, t, u);
      assert t in Matched(isWord, u + t, [u, t]);
    }
  }

  /** The rice group: its Malayalam phrase ends in a vowel sign, which is no word character. */
  const ARI := "ari"
  const ARI_MALAYALAM := "\U{0D05}\U{0D30}\U{0D3F}"

  /**
   * Searching the two names of rice run together reports both, though the Malayalam one runs into the
   * other, in any search order that tries "ari" first: the rest of the dictionary does not matter as
   * long as no other phrase tried before occurs in that query or in the Malayalam name.
   */
  lemma {:induction false} RiceRunTogether(isWord: char -> bool, a: seq<string>, b: seq<string>, c: seq<string>)
    requires AllWord(isWord, ARI) && !isWord(ARI_MALAYALAM[2]) && !isWord(' ')
    requires Phrases(a) && Phrases(b) && Phrases(c)
    requires forall i :: 0 <= i < |a| ==> !Occurs(isWord, ARI_MALAYALAM + ARI, a[i])
    requires forall i :: 0 <= i < |b| ==> !Occurs(isWord, ARI_MALAYALAM, b[i])
    ensures var reported := Matched(isWord, ARI_MALAYALAM + ARI, a + [ARI] + b + [ARI_MALAYALAM] + c);
      ARI in reported && ARI_MALAYALAM in reported && !Occurs(isWord, ARI_MALAYALAM + ARI, ARI_MALAYALAM)
  {
    CutBoundsEndAmong(isWord, ARI_MALAYALAM, ARI, a, b, c);
  }
}
