/**
 * The species resolver: `isBirdClass` and `mapToKnownSpecies`, which match a
 * free-text class label against the species table by case-insensitive
 * substring search.
 */
module SpeciesResolver {
  import opened Strings
  import opened BirdLabels
  import Sorting

  const UnknownSpecies: string := "Espécie Desconhecida"

  const GeneralBirdKeywords: seq<string> :=
    ["bird", "ave", "fowl", "cock", "hen", "passaro", "pássaro", "feather", "wing", "beak", "nest"]

  /** How many of `terms`, lower-cased, occur in `lowered`. */
  function CountContained(lowered: string, terms: seq<string>): (n: nat)
    ensures n <= |terms|
  {
    if |terms| == 0 then 0
    else
      CountContained(lowered, terms[..|terms| - 1]) +
      (if Contains(lowered, ToLower(terms[|terms| - 1])) then 1 else 0)
  }

  /** The score of one species: 5 for its scientific name, 3 per common name and
      1 per keyword that occurs in the (already lower-cased) label. */
  function MatchScore(lowered: string, species: BirdSpecies): nat
  {
    (if Contains(lowered, ToLower(species.scientificName)) then 5 else 0) +
    3 * CountContained(lowered, species.commonNames) +
    CountContained(lowered, species.keywords)
  }

  function MatchScores(lowered: string): (scores: seq<real>)
    ensures |scores| == |BirdSpeciesTable|
  {
    seq(|BirdSpeciesTable|, i requires 0 <= i < |BirdSpeciesTable| =>
      MatchScore(lowered, BirdSpeciesTable[i]) as real)
  }

  /** What `mapToKnownSpecies` returns: the name of the first entry of highest score,
      or the unknown-species marker when no entry scores. */
  function KnownSpecies(className: string): string
  {
    var lowered := ToLower(className);
    var best := Sorting.FirstArgMax(MatchScores(lowered));
    if MatchScore(lowered, BirdSpeciesTable[best]) > 0 then BirdSpeciesTable[best].name
    else UnknownSpecies
  }

  datatype SpeciesMatch = SpeciesMatch(name: string, score: nat)

  /** The sort key of `matches.sort((a, b) => b.score - a.score)`. */
  function MatchKey(m: SpeciesMatch): real { m.score as real }

  /** The callback of `birdSpecies.map` in `mapToKnownSpecies`: accumulates the score of
      one entry over its scientific name, common names and keywords. */
  method ScoreSpecies(normalizedClass: string, species: BirdSpecies) returns (score: nat)
    ensures score == MatchScore(normalizedClass, species)
  {
    score := 0;
    if Contains(normalizedClass, ToLower(species.scientificName)) {
      score := score + 5;
    }
    ghost var base := score;
    var k := 0;
    while k < |species.commonNames|
      invariant 0 <= k <= |species.commonNames|
      invariant score == base + 3 * CountContained(normalizedClass, species.commonNames[..k])
    {
      assert species.commonNames[..k + 1][..k] == species.commonNames[..k];
      if Contains(normalizedClass, ToLower(species.commonNames[k])) {
        score := score + 3;
      }
      k := k + 1;
    }
    assert species.commonNames[..k] == species.commonNames;
    base := score;
    k := 0;
    while k < |species.keywords|
      invariant 0 <= k <= |species.keywords|
      invariant score == base + CountContained(normalizedClass, species.keywords[..k])
    {
      assert species.keywords[..k + 1][..k] == species.keywords[..k];
      if Contains(normalizedClass, ToLower(species.keywords[k])) {
        score := score + 1;
      }
      k := k + 1;
    }
    assert species.keywords[..k] == species.keywords;
  }

  /** `mapToKnownSpecies`: scores every entry, sorts the matches by score (stably,
      highest first) and returns the head's name when it scored. */
  method MapToKnownSpecies(className: string) returns (name: string)
    ensures name == KnownSpecies(className)
  {
    var normalizedClass := ToLower(className);
    var matches: seq<SpeciesMatch> := [];
    var i := 0;
    while i < |BirdSpeciesTable|
      invariant 0 <= i <= |BirdSpeciesTable|
      invariant |matches| == i
      invariant forall j :: 0 <= j < i ==>
        matches[j] == SpeciesMatch(BirdSpeciesTable[j].name, MatchScore(normalizedClass, BirdSpeciesTable[j]))
    {
      var score := ScoreSpecies(normalizedClass, BirdSpeciesTable[i]);
      matches := matches + [SpeciesMatch(BirdSpeciesTable[i].name, score)];
      i := i + 1;
    }
    var sorted := Sorting.SortDesc(matches, MatchKey);
    name := if sorted[0].score > 0 then sorted[0].name else UnknownSpecies;
    ghost var b := HeadIsFirstBest(normalizedClass, matches);
  }

  /** The head of the sorted matches is the entry that FirstArgMax picks. */
  lemma HeadIsFirstBest(lowered: string, matches: seq<SpeciesMatch>) returns (b: nat)
    requires |matches| == |BirdSpeciesTable|
    requires forall j :: 0 <= j < |matches| ==>
      matches[j] == SpeciesMatch(BirdSpeciesTable[j].name, MatchScore(lowered, BirdSpeciesTable[j]))
    ensures b == Sorting.FirstArgMax(MatchScores(lowered))
    ensures Sorting.SortDesc(matches, MatchKey)[0] == matches[b]
  {
    b := Sorting.SortDescHead(matches, MatchKey);
    var scores := MatchScores(lowered);
    assert forall j :: 0 <= j < |matches| ==> scores[j] == MatchKey(matches[j]);
    Sorting.FirstArgMaxUnique(scores, b);
  }

  /** What the resolver's result means. */
  lemma KnownSpeciesMeaning(className: string)
    ensures var lowered := ToLower(className);
      (KnownSpecies(className) == UnknownSpecies <==>
        forall i :: 0 <= i < |BirdSpeciesTable| ==> MatchScore(lowered, BirdSpeciesTable[i]) == 0)
    ensures var lowered := ToLower(className);
      KnownSpecies(className) != UnknownSpecies ==>
        exists b :: 0 <= b < |BirdSpeciesTable| &&
          KnownSpecies(className) == BirdSpeciesTable[b].name &&
          MatchScore(lowered, BirdSpeciesTable[b]) > 0 &&
          (forall j :: 0 <= j < |BirdSpeciesTable| ==>
            MatchScore(lowered, BirdSpeciesTable[j]) <= MatchScore(lowered, BirdSpeciesTable[b])) &&
          (forall j :: 0 <= j < b ==>
            MatchScore(lowered, BirdSpeciesTable[j]) < MatchScore(lowered, BirdSpeciesTable[b]))
  {
    var lowered := ToLower(className);
    var scores := MatchScores(lowered);
    var b := Sorting.FirstArgMax(scores);
    Sorting.FirstArgMaxIsFirstMax(scores);
    assert forall j :: 0 <= j < |scores| ==> scores[j] == MatchScore(lowered, BirdSpeciesTable[j]) as real;
    if MatchScore(lowered, BirdSpeciesTable[b]) > 0 {
      NamesAreKnown(b);
    }
  }

  lemma NamesAreKnown(b: int)
    requires 0 <= b < |BirdSpeciesTable|
    ensures BirdSpeciesTable[b].name != UnknownSpecies
  {
  }

  predicate ContainsAny(lowered: string, terms: seq<string>)
  {
    exists k | 0 <= k < |terms| :: Contains(lowered, ToLower(terms[k]))
  }

  function SpeciesTerms(species: BirdSpecies): seq<string>
  {
    species.commonNames + species.keywords + [species.scientificName]
  }

  /** `isBirdClass`: a general bird word, or a name or keyword of a known species,
      occurs in the lower-cased label. */
  predicate IsBirdClass(className: string)
  {
    var lowered := ToLower(className);
    ContainsAny(lowered, GeneralBirdKeywords) ||
    exists i | 0 <= i < |BirdSpeciesTable| :: ContainsAny(lowered, SpeciesTerms(BirdSpeciesTable[i]))
  }

  lemma {:induction false} CountContainedPositive(lowered: string, terms: seq<string>)
    ensures CountContained(lowered, terms) > 0 <==> ContainsAny(lowered, terms)
  {
    if |terms| > 0 {
      var p := terms[..|terms| - 1];
      CountContainedPositive(lowered, p);
      if ContainsAny(lowered, p) {
        var k :| 0 <= k < |p| && Contains(lowered, ToLower(p[k]));
        assert terms[k] == p[k];
      }
      if ContainsAny(lowered, terms) {
        var k :| 0 <= k < |terms| && Contains(lowered, ToLower(terms[k]));
        if k < |p| {
          assert p[k] == terms[k];
        }
      }
    }
  }

  /** A species scores exactly when one of its terms occurs in the label. */
  lemma ScorePositiveIffMatches(lowered: string, species: BirdSpecies)
    ensures MatchScore(lowered, species) > 0 <==> ContainsAny(lowered, SpeciesTerms(species))
  {
    var terms := SpeciesTerms(species);
    var nc, nk := |species.commonNames|, |species.keywords|;
    CountContainedPositive(lowered, species.commonNames);
    CountContainedPositive(lowered, species.keywords);
    if ContainsAny(lowered, terms) {
      var k :| 0 <= k < |terms| && Contains(lowered, ToLower(terms[k]));
      if k < nc {
        assert terms[k] == species.commonNames[k];
      } else if k < nc + nk {
        assert terms[k] == species.keywords[k - nc];
      }
    }
    if Contains(lowered, ToLower(species.scientificName)) {
      assert terms[nc + nk] == species.scientificName;
    }
    if ContainsAny(lowered, species.commonNames) {
      var k :| 0 <= k < nc && Contains(lowered, ToLower(species.commonNames[k]));
      assert terms[k] == species.commonNames[k];
    }
    if ContainsAny(lowered, species.keywords) {
      var k :| 0 <= k < nk && Contains(lowered, ToLower(species.keywords[k]));
      assert terms[nc + k] == species.keywords[k];
    }
  }

  /** A label is a bird class exactly when it holds a general bird word or resolves to
      a named species; so every label the resolver names passes the pre-filter. */
  lemma BirdClassIffGeneralOrKnown(className: string)
    ensures IsBirdClass(className) <==>
      ContainsAny(ToLower(className), GeneralBirdKeywords) || KnownSpecies(className) != UnknownSpecies
  {
    var lowered := ToLower(className);
    KnownSpeciesMeaning(className);
    if exists i | 0 <= i < |BirdSpeciesTable| :: ContainsAny(lowered, SpeciesTerms(BirdSpeciesTable[i])) {
      var i :| 0 <= i < |BirdSpeciesTable| && ContainsAny(lowered, SpeciesTerms(BirdSpeciesTable[i]));
      ScorePositiveIffMatches(lowered, BirdSpeciesTable[i]);
    }
    if KnownSpecies(className) != UnknownSpecies {
      var b :| 0 <= b < |BirdSpeciesTable| && MatchScore(lowered, BirdSpeciesTable[b]) > 0;
      ScorePositiveIffMatches(lowered, BirdSpeciesTable[b]);
    }
  }
}
