/** The synonym dictionary: normalisation, query expansion and the keywords implied by a product name. */
module Synonyms {
  import opened Sorting
  import opened Matcher

  /** What the Unicode tables say of a character: `[^\W_]`, `str.split` and `str.casefold`. */
  datatype Alphabet = Alphabet(isWord: char -> bool, isSpace: char -> bool, fold: char -> string) {
    /** The few facts the services rely on. */
    predicate Sane() {
      && isSpace(' ') && !isWord(' ') && fold(' ') == " "
      && !isSpace(',') && !isWord(',') && fold(',') == ","
    }

    function Casefold(s: string): string {
      if s == "" then "" else Casefold(s[..|s| - 1]) + fold(s[|s| - 1])
    }

    /** `s.split()`. */
    function Words(s: string): seq<string> {
      if s == "" then []
      else
        var n := |s| - 1;
        if isSpace(s[n]) then Words(s[..n])
        else if n == 0 || isSpace(s[n - 1]) || Words(s[..n]) == [] then Words(s[..n]) + [[s[n]]]
        else Extended(Words(s[..n]), s[n])
    }

    function Normalize(text: string): string {
      Joined(Words(Casefold(text)), " ")
    }

    /** A dictionary phrase in the form the module stores it. */
    predicate Normal(term: string) {
      Phrase(term) && Casefold(term) == term && Joined(Words(term), " ") == term && !isSpace(term[0])
    }

    predicate Dictionary(groups: seq<seq<string>>) {
      forall g, k :: 0 <= g < |groups| && 0 <= k < |groups[g]| ==> Normal(groups[g][k])
    }
  }

  function Extended(words: seq<string>, c: char): seq<string>
    requires words != []
  {
    var n := |words| - 1;
    words[..n] + [words[n] + [c]]
  }

  /** `sep.join(parts)`. */
  function Joined(parts: seq<string>, sep: string): string {
    if parts == [] then ""
    else if |parts| == 1 then parts[0]
    else Joined(parts[..|parts| - 1], sep) + sep + parts[|parts| - 1]
  }

  /** `list(dict.fromkeys(xs))`: the first of each, in order. */
  function Dedupe(xs: seq<string>): seq<string> {
    if xs == [] then []
    else
      var n := |xs| - 1;
      var front := Dedupe(xs[..n]);
      if xs[n] in front then front else front + [xs[n]]
  }

  function Flattened(groups: seq<seq<string>>): seq<string> {
    if groups == [] then [] else Flattened(groups[..|groups| - 1]) + groups[|groups| - 1]
  }

  /** All dictionary phrases, longest first, equally long ones in the order they are listed. */
  function ByLength(groups: seq<seq<string>>): seq<string> {
    SortBy(Dedupe(Flattened(groups)), (t: string) => 0 - |t|)
  }

  /** The groups that list `term`, one after the other. */
  function GroupsOf(groups: seq<seq<string>>, term: string): seq<string> {
    if groups == [] then []
    else
      var n := |groups| - 1;
      GroupsOf(groups[..n], term) + (if term in groups[n] then groups[n] else [])
  }

  function AllGroupsOf(groups: seq<seq<string>>, terms: seq<string>): seq<string> {
    if terms == [] then [] else AllGroupsOf(groups, terms[..|terms| - 1]) + GroupsOf(groups, terms[|terms| - 1])
  }

  function SynonymsOf(groups: seq<seq<string>>, terms: seq<string>): seq<string> {
    Dedupe(AllGroupsOf(groups, terms))
  }

  /** The phrases in the order the matcher tries them. */
  function Terms(abc: Alphabet, groups: seq<seq<string>>): (terms: seq<string>)
    requires abc.Dictionary(groups)
    ensures Phrases(terms)
  {
    DictionaryPhrases(abc, groups);
    ByLength(groups)
  }

  function ReportedIn(abc: Alphabet, groups: seq<seq<string>>, text: string): seq<string>
    requires abc.Dictionary(groups)
  {
    Matched(abc.isWord, abc.Normalize(text), Terms(abc, groups))
  }

  function ExpandTerms(abc: Alphabet, groups: seq<seq<string>>, text: string): seq<string>
    requires abc.Dictionary(groups)
  {
    var query := abc.Normalize(text);
    if query == "" then [] else Dedupe([query] + SynonymsOf(groups, ReportedIn(abc, groups, text)))
  }

  function Missing(isWord: char -> bool, terms: seq<string>, present: string): seq<string> {
    if terms == [] then []
    else
      var n := |terms| - 1;
      Missing(isWord, terms[..n], present) + (if Occurs(isWord, present, terms[n]) then [] else [terms[n]])
  }

  function KeywordsForName(abc: Alphabet, groups: seq<seq<string>>, name: string, existing: string): string
    requires abc.Dictionary(groups)
  {
    var present := abc.Normalize(name + " " + existing);
    Joined(Missing(abc.isWord, SynonymsOf(groups, ReportedIn(abc, groups, name)), present), ", ")
  }

  /** How the keyword command stores the result: the non-empty parts, comma-separated. */
  function Appended(existing: string, added: string): string {
    if existing == "" then added else if added == "" then existing else existing + ", " + added
  }

  // ----- The dictionary -----

  lemma {:induction false} DedupeKeeps(xs: seq<string>)
    ensures forall x :: x in Dedupe(xs) <==> x in xs
    ensures forall i, j :: 0 <= i < j < |Dedupe(xs)| ==> Dedupe(xs)[i] != Dedupe(xs)[j]
  {
    if xs != [] {
      DedupeKeeps(xs[..|xs| - 1]);
      assert xs == xs[..|xs| - 1] + [xs[|xs| - 1]];
    }
  }

  lemma {:induction false} FlattenedMember(groups: seq<seq<string>>, t: string)
    ensures t in Flattened(groups) <==> exists g :: 0 <= g < |groups| && t in groups[g]
  {
    if groups != [] {
      var n := |groups| - 1;
      FlattenedMember(groups[..n], t);
      if g :| 0 <= g < |groups| && t in groups[g] {
        if g < n {
          assert t in groups[..n][g];
        }
      }
    }
  }

  lemma {:induction false} ByLengthKeeps(groups: seq<seq<string>>)
    ensures forall t :: t in ByLength(groups) <==> t in Flattened(groups)
    ensures forall i, j :: 0 <= i < j < |ByLength(groups)| ==> |ByLength(groups)[i]| >= |ByLength(groups)[j]|
  {
    var all, key := Dedupe(Flattened(groups)), (t: string) => 0 - |t|;
    DedupeKeeps(Flattened(groups));
    SortByKeeps(all, key);
    PermutedMembers(all, ByLength(groups));
    PermutedMembers(ByLength(groups), all);
    assert forall i, j :: 0 <= i < j < |ByLength(groups)| ==> key(ByLength(groups)[i]) <= key(ByLength(groups)[j]);
  }

  /** Every stored phrase can be handed to the matcher. */
  lemma {:induction false} DictionaryPhrases(abc: Alphabet, groups: seq<seq<string>>)
    requires abc.Dictionary(groups)
    ensures Phrases(ByLength(groups))
    ensures forall t :: t in ByLength(groups) ==> abc.Normal(t)
  {
    ByLengthKeeps(groups);
    forall t | t in ByLength(groups) ensures abc.Normal(t) {
      FlattenedMember(groups, t);
    }
    forall k | 0 <= k < |ByLength(groups)| ensures Phrase(ByLength(groups)[k]) {
      assert ByLength(groups)[k] in ByLength(groups);
    }
  }

  predicate SameGroup(groups: seq<seq<string>>, t: string, u: string) {
    exists g :: 0 <= g < |groups| && t in groups[g] && u in groups[g]
  }

  lemma {:induction false} GroupsOfMember(groups: seq<seq<string>>, term: string, u: string)
    ensures u in GroupsOf(groups, term) <==> SameGroup(groups, term, u)
  {
    if groups != [] {
      var n := |groups| - 1;
      GroupsOfMember(groups[..n], term, u);
      if SameGroup(groups, term, u) {
        var g :| 0 <= g < |groups| && term in groups[g] && u in groups[g];
        if g < n {
          assert term in groups[..n][g] && u in groups[..n][g];
        }
      }
    }
  }

  lemma {:induction false} AllGroupsOfMember(groups: seq<seq<string>>, terms: seq<string>, u: string)
    ensures u in AllGroupsOf(groups, terms) <==> exists t :: t in terms && SameGroup(groups, t, u)
  {
    if terms != [] {
      var n := |terms| - 1;
      AllGroupsOfMember(groups, terms[..n], u);
      GroupsOfMember(groups, terms[n], u);
      assert terms == terms[..n] + [terms[n]];
    }
  }

  /** Expansion gives the query first, then every phrase sharing a group with a reported one, each once and nothing else. */
  lemma {:induction false} ExpansionExact(abc: Alphabet, groups: seq<seq<string>>, text: string, u: string)
    requires abc.Dictionary(groups) && abc.Normalize(text) != ""
    ensures var r := ExpandTerms(abc, groups, text);
      && r != [] && r[0] == abc.Normalize(text)
      && (forall i, j :: 0 <= i < j < |r| ==> r[i] != r[j])
      && (u in r <==> u == abc.Normalize(text) || exists t :: t in ReportedIn(abc, groups, text) && SameGroup(groups, t, u))
  {
    var query, reported := abc.Normalize(text), ReportedIn(abc, groups, text);
    var rest := SynonymsOf(groups, reported);
    AllGroupsOfMember(groups, reported, u);
    DedupeKeeps(AllGroupsOf(groups, reported));
    DedupeKeeps([query] + rest);
    DedupeFirst([query] + rest);
  }

  lemma {:induction false} DedupeFirst(xs: seq<string>)
    requires xs != []
    ensures Dedupe(xs) != [] && Dedupe(xs)[0] == xs[0]
  {
    if |xs| > 1 {
      DedupeFirst(xs[..|xs| - 1]);
    }
  }
}
