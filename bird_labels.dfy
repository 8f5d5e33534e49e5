/** The static table of known species that the species resolver matches labels against. */
module BirdLabels {

  datatype BirdSpecies = BirdSpecies(
    name: string,
    scientificName: string,
    commonNames: seq<string>,
    keywords: seq<string>)

  /** `birdSpecies`, in its fixed order. */
  const BirdSpeciesTable: seq<BirdSpecies> := [
    BirdSpecies("Sabiá-laranjeira", "Turdus rufiventris",
      ["Rufous-bellied Thrush", "Sabiá", "Sabiá-laranjeira"], ["thrush", "turdus", "sabia"]),
    BirdSpecies("Bem-te-vi", "Pitangus sulphuratus",
      ["Great Kiskadee", "Bem-te-vi", "Bentevi"], ["kiskadee", "flycatcher", "bentevi"]),
    BirdSpecies("João-de-barro", "Furnarius rufus",
      ["Rufous Hornero", "João-de-barro", "Hornero"], ["hornero", "ovenbird", "joao"]),
    BirdSpecies("Pardal", "Passer domesticus",
      ["House Sparrow", "Pardal"], ["sparrow", "finch", "pardal"]),
    BirdSpecies("Canário-da-terra", "Sicalis flaveola",
      ["Saffron Finch", "Canário-da-terra"], ["finch", "canary", "saffron"]),
    BirdSpecies("Beija-flor", "Trochilidae",
      ["Hummingbird", "Beija-flor", "Colibri"], ["hummingbird", "colibri", "beijaflor"]),
    BirdSpecies("Rolinha", "Columbina talpacoti",
      ["Ruddy Ground Dove", "Rolinha", "Rolinha-roxa"], ["dove", "ground dove", "rolinha"]),
    BirdSpecies("Sanhaço", "Tangara sayaca",
      ["Sayaca Tanager", "Sanhaço", "Sanhaço-cinzento"], ["tanager", "sanhaco", "sayaca"]),
    BirdSpecies("Tico-tico", "Zonotrichia capensis",
      ["Rufous-collared Sparrow", "Tico-tico"], ["sparrow", "zonotrichia", "tico"]),
    BirdSpecies("Corruíra", "Troglodytes musculus",
      ["Southern House Wren", "Corruíra", "Garrincha"], ["wren", "corruira", "house wren"]),
    BirdSpecies("Pica-pau", "Picidae",
      ["Woodpecker", "Pica-pau"], ["woodpecker", "picapau", "picidae"]),
    BirdSpecies("Andorinha", "Hirundinidae",
      ["Swallow", "Andorinha"], ["swallow", "martin", "andorinha"]),
    BirdSpecies("Pomba", "Columba livia",
      ["Rock Pigeon", "Pomba", "Pombo"], ["pigeon", "dove", "pomba"]),
    BirdSpecies("Quero-quero", "Vanellus chilensis",
      ["Southern Lapwing", "Quero-quero"], ["lapwing", "plover", "queroquero"]),
    BirdSpecies("Sabiá-do-campo", "Mimus saturninus",
      ["Chalk-browed Mockingbird", "Sabiá-do-campo"], ["mockingbird", "mimus", "sabia"])
  ]

  /** `birdLabels`: the species names, in table order. */
  function BirdLabelList(): (labels: seq<string>)
    ensures |labels| == |BirdSpeciesTable|
    ensures forall i :: 0 <= i < |labels| ==> labels[i] == BirdSpeciesTable[i].name
  {
    seq(|BirdSpeciesTable|, i requires 0 <= i < |BirdSpeciesTable| => BirdSpeciesTable[i].name)
  }

  lemma TableShape()
    ensures |BirdSpeciesTable| == 15
    ensures forall i :: 0 <= i < |BirdSpeciesTable| ==>
      |BirdSpeciesTable[i].keywords| == 3 && |BirdSpeciesTable[i].commonNames| >= 2
  {
  }

  lemma NamesDistinct()
    ensures forall i, j :: 0 <= i < j < |BirdSpeciesTable| ==>
      BirdSpeciesTable[i].name != BirdSpeciesTable[j].name
  {
  }

  /** Every species lists its own display name among its common names. */
  lemma NameIsCommonName()
    ensures forall i :: 0 <= i < |BirdSpeciesTable| ==>
      BirdSpeciesTable[i].name in BirdSpeciesTable[i].commonNames
  {
  }

  /** The indices of the entries that list keyword `k`. */
  function EntriesWithKeyword(k: string): (ix: set<int>)
    ensures forall i :: i in ix <==> 0 <= i < |BirdSpeciesTable| && k in BirdSpeciesTable[i].keywords
  {
    set i | 0 <= i < |BirdSpeciesTable| && k in BirdSpeciesTable[i].keywords
  }

  lemma KeywordEntries(k: string, ix: set<int>)
    requires forall i :: 0 <= i < |BirdSpeciesTable| ==> (k in BirdSpeciesTable[i].keywords <==> i in ix)
    requires forall i :: i in ix ==> 0 <= i < |BirdSpeciesTable|
    ensures EntriesWithKeyword(k) == ix
  {
  }

  lemma SabiaKeywordEntries()
    ensures EntriesWithKeyword("sabia") == {0, 14}
  {
    forall i | 0 <= i < |BirdSpeciesTable|
      ensures "sabia" in BirdSpeciesTable[i].keywords <==> i in {0, 14}
    {
      if i == 0 {} else if i == 1 {} else if i == 2 {} else if i == 3 {} else if i == 4 {}
      else if i == 5 {} else if i == 6 {} else if i == 7 {} else if i == 8 {} else if i == 9 {}
      else if i == 10 {} else if i == 11 {} else if i == 12 {} else if i == 13 {} else {}
    }
    KeywordEntries("sabia", {0, 14});
  }

  lemma FinchKeywordEntries()
    ensures EntriesWithKeyword("finch") == {3, 4}
  {
    forall i | 0 <= i < |BirdSpeciesTable|
      ensures "finch" in BirdSpeciesTable[i].keywords <==> i in {3, 4}
    {
      if i == 0 {} else if i == 1 {} else if i == 2 {} else if i == 3 {} else if i == 4 {}
      else if i == 5 {} else if i == 6 {} else if i == 7 {} else if i == 8 {} else if i == 9 {}
      else if i == 10 {} else if i == 11 {} else if i == 12 {} else if i == 13 {} else {}
    }
    KeywordEntries("finch", {3, 4});
  }

  lemma SparrowKeywordEntries()
    ensures EntriesWithKeyword("sparrow") == {3, 8}
  {
    forall i | 0 <= i < |BirdSpeciesTable|
      ensures "sparrow" in BirdSpeciesTable[i].keywords <==> i in {3, 8}
    {
      if i == 0 {} else if i == 1 {} else if i == 2 {} else if i == 3 {} else if i == 4 {}
      else if i == 5 {} else if i == 6 {} else if i == 7 {} else if i == 8 {} else if i == 9 {}
      else if i == 10 {} else if i == 11 {} else if i == 12 {} else if i == 13 {} else {}
    }
    KeywordEntries("sparrow", {3, 8});
  }

  lemma DoveKeywordEntries()
    ensures EntriesWithKeyword("dove") == {6, 12}
  {
    forall i | 0 <= i < |BirdSpeciesTable|
      ensures "dove" in BirdSpeciesTable[i].keywords <==> i in {6, 12}
    {
      if i == 0 {} else if i == 1 {} else if i == 2 {} else if i == 3 {} else if i == 4 {}
      else if i == 5 {} else if i == 6 {} else if i == 7 {} else if i == 8 {} else if i == 9 {}
      else if i == 10 {} else if i == 11 {} else if i == 12 {} else if i == 13 {} else {}
    }
    KeywordEntries("dove", {6, 12});
  }

  /** Four keywords are each listed by exactly two entries, so the resolver's ties are real. */
  lemma SharedKeywords()
    ensures EntriesWithKeyword("sabia") == {0, 14}
    ensures EntriesWithKeyword("finch") == {3, 4}
    ensures EntriesWithKeyword("sparrow") == {3, 8}
    ensures EntriesWithKeyword("dove") == {6, 12}
  {
    SabiaKeywordEntries();
    FinchKeywordEntries();
    SparrowKeywordEntries();
    DoveKeywordEntries();
  }
}
