/** The term/definition matching exercise: the answer key and the test the
    definition zones' `onDrop` handler applies to a dropped term. */
module TermMatching {

  datatype Pair = Pair(term: string, definition: string)

  /** The answer key of the environment exercise. */
  const EnvironmentPairs: seq<Pair> := [
    Pair("recycler", "To reuse materials"),
    Pair("pollution atmosphérique", "Air contamination"),
    Pair("énergies renouvelables", "Solar and wind power")
  ]

  /** The position `pairs.find(p => p.term === term)` stops at: the first
      pair with that term, or `|pairs|` when there is none. */
  function FindIndex(pairs: seq<Pair>, term: string): (k: nat)
    ensures k <= |pairs|
    ensures forall j :: 0 <= j < k ==> pairs[j].term != term
    ensures k < |pairs| ==> pairs[k].term == term
    decreases |pairs|
  {
    if pairs == [] then 0
    else if pairs[0].term == term then 0
    else 1 + FindIndex(pairs[1..], term)
  }

  /** A drop of `term` on the zone of `definition` is correct when the
      first answer-key pair for `term` has exactly that definition; with no
      pair for `term`, `find` yields undefined and nothing is correct. */
  predicate Accepts(pairs: seq<Pair>, term: string, definition: string) {
    var k := FindIndex(pairs, term);
    k < |pairs| && pairs[k].definition == definition
  }

  /** Every recorded match is one the drop test accepts. */
  predicate MatchesSound(pairs: seq<Pair>, matches: map<string, string>) {
    forall t :: t in matches ==> Accepts(pairs, t, matches[t])
  }

  predicate TermsDistinct(pairs: seq<Pair>) {
    forall i, j :: 0 <= i < j < |pairs| ==> pairs[i].term != pairs[j].term
  }

  function TermSet(pairs: seq<Pair>): set<string> {
    set i | 0 <= i < |pairs| :: pairs[i].term
  }

  /** A drop is accepted exactly when `Pair(term, definition)` is in the key
      and no earlier pair has the same term. */
  lemma AcceptsIff(pairs: seq<Pair>, term: string, definition: string)
    ensures Accepts(pairs, term, definition) <==>
      exists i :: 0 <= i < |pairs| && pairs[i] == Pair(term, definition)
                  && forall j :: 0 <= j < i ==> pairs[j].term != term
  {
  }

  /** With one pair per term, a drop is accepted exactly when the pair is in the key. */
  lemma AcceptsIffInKey(pairs: seq<Pair>, term: string, definition: string)
    requires TermsDistinct(pairs)
    ensures Accepts(pairs, term, definition) <==> Pair(term, definition) in pairs
  {
  }

  /** A term is accepted on at most one definition zone. */
  lemma AcceptedDefinitionUnique(pairs: seq<Pair>, term: string, d1: string, d2: string)
    requires Accepts(pairs, term, d1) && Accepts(pairs, term, d2)
    ensures d1 == d2
  {
  }

  lemma {:induction false} TermSetSize(pairs: seq<Pair>)
    ensures |TermSet(pairs)| <= |pairs|
    decreases |pairs|
  {
    if pairs != [] {
      var rest := pairs[1..];
      TermSetSize(rest);
      assert TermSet(pairs) <= TermSet(rest) + {pairs[0].term} by {
        forall t | t in TermSet(pairs) ensures t in TermSet(rest) + {pairs[0].term} {
          var i :| 0 <= i < |pairs| && pairs[i].term == t;
          if i > 0 {
            assert rest[i - 1].term == t;
          }
        }
      }
      assert |TermSet(rest) + {pairs[0].term}| <= |TermSet(rest)| + 1;
      SubsetSize(TermSet(pairs), TermSet(rest) + {pairs[0].term});
    }
  }

  lemma SubsetSize<T>(a: set<T>, b: set<T>)
    requires a <= b
    ensures |a| <= |b|
  {
    assert b == a + (b - a);
  }

  /** Matched terms cannot be dragged again, and every match is a term of
      the key, so there are never more matches than pairs. */
  lemma MatchesBounded(pairs: seq<Pair>, matches: map<string, string>)
    requires MatchesSound(pairs, matches)
    ensures |matches| <= |pairs|
  {
    assert matches.Keys <= TermSet(pairs) by {
      forall t | t in matches ensures t in TermSet(pairs) {
        var k := FindIndex(pairs, t);
        assert pairs[k].term == t;
      }
    }
    SubsetSize(matches.Keys, TermSet(pairs));
    TermSetSize(pairs);
  }

  /** Recording an accepted drop keeps every match sound. */
  lemma RecordKeepsSound(pairs: seq<Pair>, matches: map<string, string>, term: string, definition: string)
    requires MatchesSound(pairs, matches)
    requires Accepts(pairs, term, definition)
    ensures MatchesSound(pairs, matches[term := definition])
  {
  }

  /** Dropping "recycler" on "Air contamination" is refused; on
      "To reuse materials" it is accepted. */
  lemma RecyclerScenario()
    ensures !Accepts(EnvironmentPairs, "recycler", "Air contamination")
    ensures Accepts(EnvironmentPairs, "recycler", "To reuse materials")
  {
  }
}
