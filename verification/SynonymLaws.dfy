/** Longer phrases win, and storing the keywords of a name leaves nothing more to store. */
module SynonymLaws {
  import opened Matcher
  import opened Synonyms
  import ML = MatcherLaws

  // ----- Longest first -----

  /** Some phrase at least as long took part of the stretch of `length` characters at `s`. */
  predicate Covered(pieces: seq<Piece>, s: nat, length: nat) {
    exists k :: 1 <= k < |pieces| && pieces[k].start > s && s + length > ML.End(pieces[k - 1]) && |pieces[k].cut| >= length
  }

  /**
   * A dictionary phrase that stands in the query and is not reported has lost part of that stretch to
   * another reported phrase that is at least as long.
   */
  lemma {:induction false} LongerPhraseWins(abc: Alphabet, groups: seq<seq<string>>, text: string, j: nat, s: nat)
    requires abc.Sane() && abc.Dictionary(groups)
    requires j < |Terms(abc, groups)| && s <= |abc.Normalize(text)|
    requires OccursAt(abc.isWord, abc.Normalize(text), Terms(abc, groups)[j], s)
    requires Terms(abc, groups)[j] !in ReportedIn(abc, groups, text)
    ensures Covered(Pieces(abc.isWord, abc.Normalize(text), Terms(abc, groups)[..j]), s, |Terms(abc, groups)[j]|)
  {
    var terms, query := Terms(abc, groups), abc.Normalize(text);
    assert terms == terms[..j] + [terms[j]] + terms[j + 1..];
    ByLengthKeeps(groups);
    forall t | t in terms[..j] ensures |t| >= |terms[j]| {
      var i :| 0 <= i < j && terms[i] == t;
    }
    UnreportedIsCovered(abc.isWord, query, terms[..j], terms[j], terms[j + 1..], s);
  }

  lemma {:induction false} UnreportedIsCovered(
      isWord: char -> bool, query: string, before: seq<string>, term: string, after: seq<string>, s: nat)
    requires Phrases(before) && Phrase(term) && Phrases(after) && !isWord(' ') && s <= |query|
    requires OccursAt(isWord, query, term, s) && term !in Matched(isWord, query, before + [term] + after)
    requires forall t :: t in before ==> |t| >= |term|
    ensures Covered(Pieces(isWord, query, before), s, |term|)
  {
    var pieces := Pieces(isWord, query, before);
    if ML.Free(pieces, s, |term|) {
      assert ML.LeftFor(isWord, query, before, term);
      ML.LeftPhrasesReported(isWord, query, before, term, after);
      assert false;
    }
    var k :| 1 <= k < |pieces| && !(s + |term| <= ML.End(pieces[k - 1]) || pieces[k].start <= s);
    ML.ReportedHaveSpans(isWord, query, before, pieces[k].cut);
    ML.MatchedFrom(isWord, query, before, pieces[k].cut);
  }

  // ----- Normalised text -----

  function Collapse(abc: Alphabet, s: string): string {
    Joined(abc.Words(s), " ")
  }

  lemma {:induction false} JoinedPush(parts: seq<string>, x: string)
    ensures Joined(parts + [x], " ") == if parts == [] then x else Joined(parts, " ") + " " + x
  {
    assert (parts + [x])[..|parts|] == parts;
  }

  lemma {:induction false} JoinedExtended(parts: seq<string>, c: char)
    requires parts != []
    ensures Joined(Extended(parts, c), " ") == Joined(parts, " ") + [c]
  {
    var n := |parts| - 1;
    assert parts[..n] + [parts[n]] == parts;
    JoinedPush(parts[..n], parts[n]);
    JoinedPush(parts[..n], parts[n] + [c]);
  }

  predicate NonEmptyWords(words: seq<string>) {
    forall k :: 0 <= k < |words| ==> words[k] != ""
  }

  lemma {:induction false} WordsNonEmpty(abc: Alphabet, s: string)
    ensures NonEmptyWords(abc.Words(s))
  {
    if s != "" {
      WordsNonEmpty(abc, s[..|s| - 1]);
    }
  }

  lemma {:induction false} JoinedEmptyIff(words: seq<string>)
    requires NonEmptyWords(words)
    ensures Joined(words, " ") == "" <==> words == []
  {
    if words != [] {
      assert words == words[..|words| - 1] + [words[|words| - 1]];
      JoinedPush(words[..|words| - 1], words[|words| - 1]);
    }
  }

  predicate EndsBlank(abc: Alphabet, s: string) {
    s == "" || abc.isSpace(s[|s| - 1])
  }

  /** One more character of input, seen from the normalised text. */
  function Grown(abc: Alphabet, blank: bool, done: string, c: char): string {
    if abc.isSpace(c) then done
    else if done == "" then [c]
    else if blank then done + " " + [c]
    else done + [c]
  }

  lemma {:induction false} CollapsePush(abc: Alphabet, s: string, c: char)
    ensures Collapse(abc, s + [c]) == Grown(abc, EndsBlank(abc, s), Collapse(abc, s), c)
  {
    var words := abc.Words(s);
    assert (s + [c])[..|s|] == s;
    WordsNonEmpty(abc, s);
    JoinedEmptyIff(words);
    JoinedPush(words, [c]);
    if words != [] {
      JoinedExtended(words, c);
    }
  }

  lemma {:induction false} CasefoldConcat(abc: Alphabet, a: string, b: string)
    ensures abc.Casefold(a + b) == abc.Casefold(a) + abc.Casefold(b)
  {
    if b == "" {
      assert a + b == a;
    } else {
      var n := |b| - 1;
      assert (a + b)[..|a| + n] == a + b[..n];
      CasefoldConcat(abc, a, b[..n]);
    }
  }

  /** Behind a blank, text normalises on its own, with one space in between. */
  function Spaced(a: string, b: string): string {
    if a == "" then b else if b == "" then a else a + " " + b
  }

  lemma {:induction false} CollapseBehindBlank(abc: Alphabet, u: string, t: string)
    requires EndsBlank(abc, u)
    ensures Collapse(abc, u + t) == Spaced(Collapse(abc, u), Collapse(abc, t))
  {
    if t == "" {
      assert u + t == u;
      assert Collapse(abc, "") == "";
    } else {
      var n := |t| - 1;
      var t', c := t[..n], t[n];
      assert u + t == u + t' + [c] && t == t' + [c];
      CollapseBehindBlank(abc, u, t');
      CollapsePush(abc, u + t', c);
      CollapsePush(abc, t', c);
      assert EndsBlank(abc, u + t') == EndsBlank(abc, t');
      if !EndsBlank(abc, t') {
        NotBlankHasWord(abc, t');
      }
      GrownSpaced(abc, EndsBlank(abc, t'), Collapse(abc, u), Collapse(abc, t'), c);
    }
  }

  lemma {:induction false} GrownSpaced(abc: Alphabet, blank: bool, a: string, b: string, c: char)
    requires !blank ==> b != ""
    ensures Grown(abc, blank, Spaced(a, b), c) == Spaced(a, Grown(abc, blank, b, c))
  {
  }

  lemma {:induction false} NotBlankHasWord(abc: Alphabet, t: string)
    requires !EndsBlank(abc, t)
    ensures Collapse(abc, t) != ""
  {
    var n := |t| - 1;
    assert t == t[..n] + [t[n]];
    CollapsePush(abc, t[..n], t[n]);
  }

  /** `v` cannot run on from the last word of `u`. */
  predicate Separate(abc: Alphabet, u: string, v: string) {
    EndsBlank(abc, u) || v == "" || abc.isSpace(v[0]) || v[0] == ','
  }

  /** `b` is `a` with text added behind it that touches none of its words. */
  predicate Grows(a: string, b: string) {
    a <= b && (|a| < |b| ==> b[|a|] == ' ' || b[|a|] == ',')
  }

  lemma {:induction false} CollapseGrows(abc: Alphabet, u: string, v: string)
    requires Separate(abc, u, v) && Collapse(abc, u) != ""
    ensures Grows(Collapse(abc, u), Collapse(abc, u + v))
    ensures v != "" && Collapse(abc, u) == Collapse(abc, u + v) ==> EndsBlank(abc, u + v)
    ensures v == "" ==> u + v == u
  {
    if v != "" {
      var n := |v| - 1;
      var v', c := v[..n], v[n];
      assert u + v == u + v' + [c];
      CollapseGrows(abc, u, v');
      CollapsePush(abc, u + v', c);
      assert v' != "" ==> v'[0] == v[0];
    } else {
      assert u + v == u;
    }
  }

  /** An occurrence survives whatever is added behind its text without touching it. */
  lemma {:induction false} OccurrenceSurvives(abc: Alphabet, a: string, b: string, term: string)
    requires abc.Sane() && Grows(a, b) && Occurs(abc.isWord, a, term)
    ensures Occurs(abc.isWord, b, term)
  {
    var i :| 0 <= i <= |a| && OccursAt(abc.isWord, a, term, i);
    assert b[i..i + |term|] == a[i..i + |term|];
    assert OccursAt(abc.isWord, b, term, i);
  }

  // ----- The second run -----

  lemma {:induction false} JoinedBoundaries(parts: seq<string>, k: nat) returns (before: string, after: string)
    requires k < |parts|
    ensures Joined(parts, ", ") == before + parts[k] + after
    ensures before == "" || before[|before| - 1] == ' '
    ensures after == "" || after[0] == ','
  {
    var n := |parts| - 1;
    if n == 0 {
      before, after := "", "";
    } else if k == n {
      before, after := Joined(parts[..n], ", ") + ", ", "";
    } else {
      var b, a := JoinedBoundaries(parts[..n], k);
      before, after := b, a + (", " + parts[n]);
      assert b + parts[k] + a + ", " + parts[n] == before + parts[k] + after;
    }
  }

  /** A dictionary phrase set off by a blank and a comma is found again in the normalised text. */
  lemma {:induction false} SetOffOccurs(abc: Alphabet, u: string, term: string, v: string)
    requires abc.Sane() && abc.Normal(term)
    requires u == "" || u[|u| - 1] == ' '
    requires v == "" || v[0] == ','
    ensures Occurs(abc.isWord, abc.Normalize(u + term + v), term)
  {
    var u', v' := abc.Casefold(u), abc.Casefold(v);
    FoldEnds(abc, u, v);
    CasefoldConcat(abc, u, term);
    CasefoldConcat(abc, u + term, v);
    CollapseBehindBlank(abc, u', term);
    CollapseGrows(abc, u' + term, v');
    OccursAtEnd(abc, Collapse(abc, u'), term);
    OccurrenceSurvives(abc, Collapse(abc, u' + term), Collapse(abc, u' + term + v'), term);
  }

  lemma {:induction false} OccursAtEnd(abc: Alphabet, lead: string, term: string)
    requires abc.Sane() && term != ""
    ensures Occurs(abc.isWord, Spaced(lead, term), term)
  {
    if lead == "" {
      OccursBehind(abc, "", term);
      assert "" + term == term;
    } else {
      OccursBehind(abc, lead + " ", term);
    }
  }

  lemma {:induction false} OccursBehind(abc: Alphabet, before: string, term: string)
    requires abc.Sane() && (before == "" || before[|before| - 1] == ' ')
    ensures Occurs(abc.isWord, before + term, term)
  {
    assert (before + term)[|before|..] == term;
    assert OccursAt(abc.isWord, before + term, term, |before|);
  }

  lemma {:induction false} FoldEnds(abc: Alphabet, u: string, v: string)
    requires abc.Sane()
    ensures u == "" || u[|u| - 1] == ' ' ==> EndsBlank(abc, abc.Casefold(u))
    ensures v == "" ==> abc.Casefold(v) == ""
    ensures v != "" && v[0] == ',' ==> abc.Casefold(v) != "" && abc.Casefold(v)[0] == ','
  {
    if v != "" {
      CasefoldConcat(abc, v[..1], v[1..]);
      assert v[..1] + v[1..] == v && v[..1][..0] == "";
    }
  }

  lemma {:induction false} MissingMembers(isWord: char -> bool, terms: seq<string>, present: string)
    ensures forall t :: t in Missing(isWord, terms, present) <==> t in terms && !Occurs(isWord, present, t)
  {
    if terms != [] {
      var n := |terms| - 1;
      MissingMembers(isWord, terms[..n], present);
      assert terms == terms[..n] + [terms[n]];
    }
  }

  lemma {:induction false} SynonymsNormal(abc: Alphabet, groups: seq<seq<string>>, terms: seq<string>, t: string)
    requires abc.Dictionary(groups) && t in SynonymsOf(groups, terms)
    ensures abc.Normal(t)
  {
    DedupeKeeps(AllGroupsOf(groups, terms));
    AllGroupsOfMember(groups, terms, t);
  }

  /** Whatever stood in the name and the stored keywords still stands there once keywords are appended. */
  lemma {:induction false} PresentStays(abc: Alphabet, name: string, existing: string, added: string, term: string)
    requires abc.Sane() && term != "" && Occurs(abc.isWord, abc.Normalize(name + " " + existing), term)
    ensures Occurs(abc.isWord, abc.Normalize(name + " " + Appended(existing, added)), term)
  {
    var u := name + " " + existing;
    var v := if existing == "" || added == "" then added else ", " + added;
    assert name + " " + Appended(existing, added) == u + v;
    CasefoldConcat(abc, u, v);
    var u', v' := abc.Casefold(u), abc.Casefold(v);
    FoldEnds(abc, u, v);
    CollapseGrows(abc, u', v');
    OccurrenceSurvives(abc, Collapse(abc, u'), Collapse(abc, u' + v'), term);
  }

  /** Every keyword that was added is found the next time. */
  lemma {:induction false} AddedIsPresent(abc: Alphabet, name: string, existing: string, missing: seq<string>, k: nat)
    requires abc.Sane() && k < |missing| && abc.Normal(missing[k])
    ensures Occurs(abc.isWord, abc.Normalize(name + " " + Appended(existing, Joined(missing, ", "))), missing[k])
  {
    var added := Joined(missing, ", ");
    var before, after := JoinedBoundaries(missing, k);
    var u := if existing == "" then name + " " + before else name + " " + existing + ", " + before;
    assert added != "";
    assert name + " " + Appended(existing, added) == u + missing[k] + after;
    SetOffOccurs(abc, u, missing[k], after);
  }

  /** Once the keywords of a name are stored, a second run has nothing to add. */
  lemma {:induction false} KeywordsSettle(abc: Alphabet, groups: seq<seq<string>>, name: string, existing: string)
    requires abc.Sane() && abc.Dictionary(groups)
    ensures KeywordsForName(abc, groups, name, Appended(existing, KeywordsForName(abc, groups, name, existing))) == ""
  {
    var terms := SynonymsOf(groups, ReportedIn(abc, groups, name));
    var present := abc.Normalize(name + " " + existing);
    var missing := Missing(abc.isWord, terms, present);
    var present' := abc.Normalize(name + " " + Appended(existing, Joined(missing, ", ")));
    MissingMembers(abc.isWord, terms, present);
    forall t | t in terms ensures Occurs(abc.isWord, present', t) {
      SynonymsNormal(abc, groups, ReportedIn(abc, groups, name), t);
      if Occurs(abc.isWord, present, t) {
        PresentStays(abc, name, existing, Joined(missing, ", "), t);
      } else {
        var k :| 0 <= k < |missing| && missing[k] == t;
        AddedIsPresent(abc, name, existing, missing, k);
      }
    }
    NothingMissing(abc.isWord, terms, present');
  }

  lemma {:induction false} NothingMissing(isWord: char -> bool, terms: seq<string>, present: string)
    requires forall k :: 0 <= k < |terms| ==> Occurs(isWord, present, terms[k])
    ensures Missing(isWord, terms, present) == []
  {
    if terms != [] {
      NothingMissing(isWord, terms[..|terms| - 1], present);
    }
  }

  // ----- What is stored -----

  predicate AllDifferent(xs: seq<string>) {
    forall i, j :: 0 <= i < j < |xs| ==> xs[i] != xs[j]
  }

  lemma {:induction false} MissingDistinct(isWord: char -> bool, terms: seq<string>, present: string)
    requires AllDifferent(terms)
    ensures AllDifferent(Missing(isWord, terms, present))
  {
    if terms != [] {
      var n := |terms| - 1;
      var front := Missing(isWord, terms[..n], present);
      MissingDistinct(isWord, terms[..n], present);
      MissingMembers(isWord, terms[..n], present);
      assert terms[n] !in terms[..n];
      assert terms[n] !in front;
    }
  }

  /** A phrase that shares a group with one found in the name. */
  predicate Implied(abc: Alphabet, groups: seq<seq<string>>, name: string, t: string)
    requires abc.Dictionary(groups)
  {
    exists r :: r in ReportedIn(abc, groups, name) && SameGroup(groups, r, t)
  }

  /** Each implied phrase that neither the name nor the stored keywords hold, once, and nothing else. */
  ghost predicate Lacking(abc: Alphabet, groups: seq<seq<string>>, name: string, existing: string, added: seq<string>)
    requires abc.Dictionary(groups)
  {
    && AllDifferent(added)
    && (forall t :: t in added <==>
          Implied(abc, groups, name, t) && !Occurs(abc.isWord, abc.Normalize(name + " " + existing), t))
  }

  lemma {:induction false} ImpliedAreSynonyms(abc: Alphabet, groups: seq<seq<string>>, name: string, t: string)
    requires abc.Dictionary(groups)
    ensures t in SynonymsOf(groups, ReportedIn(abc, groups, name)) <==> Implied(abc, groups, name, t)
  {
    DedupeKeeps(AllGroupsOf(groups, ReportedIn(abc, groups, name)));
    AllGroupsOfMember(groups, ReportedIn(abc, groups, name), t);
  }

  lemma {:induction false} MissingLack(abc: Alphabet, groups: seq<seq<string>>, name: string, existing: string, terms: seq<string>)
    requires abc.Dictionary(groups)
    requires AllDifferent(terms)
    requires forall t :: t in terms <==> Implied(abc, groups, name, t)
    ensures Lacking(abc, groups, name, existing, Missing(abc.isWord, terms, abc.Normalize(name + " " + existing)))
  {
    MissingDistinct(abc.isWord, terms, abc.Normalize(name + " " + existing));
    MissingMembers(abc.isWord, terms, abc.Normalize(name + " " + existing));
  }

  /** The keywords of a name are the phrases it implies and lacks, comma-separated. */
  lemma {:induction false} KeywordsExact(abc: Alphabet, groups: seq<seq<string>>, name: string, existing: string)
    requires abc.Dictionary(groups)
    ensures exists added ::
      Lacking(abc, groups, name, existing, added) && KeywordsForName(abc, groups, name, existing) == Joined(added, ", ")
  {
    var terms := SynonymsOf(groups, ReportedIn(abc, groups, name));
    DedupeKeeps(AllGroupsOf(groups, ReportedIn(abc, groups, name)));
    forall t ensures t in terms <==> Implied(abc, groups, name, t) {
      ImpliedAreSynonyms(abc, groups, name, t);
    }
    MissingLack(abc, groups, name, existing, terms);
  }

  /** The characters of a text that are no blanks. */
  function Solid(abc: Alphabet, s: string): string {
    if s == "" then ""
    else Solid(abc, s[..|s| - 1]) + (if abc.isSpace(s[|s| - 1]) then "" else [s[|s| - 1]])
  }

  function Concatenated(words: seq<string>): string {
    if words == [] then "" else Concatenated(words[..|words| - 1]) + words[|words| - 1]
  }

  /** How many words begin in a text. */
  function Beginnings(abc: Alphabet, s: string): nat {
    if s == "" then 0
    else
      var n := |s| - 1;
      Beginnings(abc, s[..n]) + (if !abc.isSpace(s[n]) && (n == 0 || abc.isSpace(s[n - 1])) then 1 else 0)
  }

  predicate SolidWords(abc: Alphabet, words: seq<string>) {
    forall k :: 0 <= k < |words| ==> words[k] != "" && forall i :: 0 <= i < |words[k]| ==> !abc.isSpace(words[k][i])
  }

  lemma {:induction false} WordBegun(abc: Alphabet, words: seq<string>, c: char)
    requires SolidWords(abc, words) && !abc.isSpace(c)
    ensures SolidWords(abc, words + [[c]]) && Concatenated(words + [[c]]) == Concatenated(words) + [c]
  {
    assert (words + [[c]])[..|words|] == words;
  }

  lemma {:induction false} WordExtended(abc: Alphabet, words: seq<string>, c: char)
    requires words != [] && SolidWords(abc, words) && !abc.isSpace(c)
    ensures SolidWords(abc, Extended(words, c)) && Concatenated(Extended(words, c)) == Concatenated(words) + [c]
  {
    var m := |words| - 1;
    assert Extended(words, c)[..m] == words[..m];
    assert Concatenated(words[..m]) + (words[m] + [c]) == Concatenated(words[..m]) + words[m] + [c];
  }

  /** Splitting a text gives its solid runs: no word is empty or holds a blank, and nothing else is lost. */
  lemma {:induction false} WordsAreRuns(abc: Alphabet, s: string)
    ensures Concatenated(abc.Words(s)) == Solid(abc, s) && |abc.Words(s)| == Beginnings(abc, s)
    ensures SolidWords(abc, abc.Words(s)) && (!EndsBlank(abc, s) ==> abc.Words(s) != [])
  {
    if s != "" {
      var n := |s| - 1;
      WordsAreRuns(abc, s[..n]);
      if !abc.isSpace(s[n]) {
        if n == 0 || abc.isSpace(s[n - 1]) {
          WordBegun(abc, abc.Words(s[..n]), s[n]);
        } else {
          assert !EndsBlank(abc, s[..n]);
          WordExtended(abc, abc.Words(s[..n]), s[n]);
        }
      }
    }
  }
}
