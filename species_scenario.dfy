/**
 * Substring facts about the lower-cased label "rufous-bellied thrush". The
 * verifier does not evaluate substring search on literals by itself: an
 * occurrence is shown by its position, an absence by a character the label lacks,
 * by length, or by splitting the label at a character the term lacks.
 */
module ThrushTerms {
  import opened Strings

  const ThrushLowered: string := "rufous-bellied thrush"

  lemma Absent0()
    ensures !Contains("d thrush", "turdus")
  {
    assert "d thrush" == "d" + [' '] + "thrush";
    NotContainsShort("d", "turdus");
    NotContainsMissingChar("thrush", "turdus", 'd');
    NotContainsSplit("d", ' ', "thrush", "turdus");
  }

  lemma Absent1()
    ensures !Contains("ellied thrush", "turdus")
  {
    assert "ellied thrush" == "elli" + ['e'] + "d thrush";
    NotContainsShort("elli", "turdus");
    Absent0();
    NotContainsSplit("elli", 'e', "d thrush", "turdus");
  }

  lemma Absent2()
    ensures !Contains("bellied thrush", "turdus")
  {
    assert "bellied thrush" == "" + ['b'] + "ellied thrush";
    NotContainsShort("", "turdus");
    Absent1();
    NotContainsSplit("", 'b', "ellied thrush", "turdus");
  }

  lemma Absent3()
    ensures !Contains("us-bellied thrush", "turdus")
  {
    assert "us-bellied thrush" == "us" + ['-'] + "bellied thrush";
    NotContainsShort("us", "turdus");
    Absent2();
    NotContainsSplit("us", '-', "bellied thrush", "turdus");
  }

  lemma Absent4()
    ensures !Contains("ous-bellied thrush", "turdus")
  {
    assert "ous-bellied thrush" == "" + ['o'] + "us-bellied thrush";
    NotContainsShort("", "turdus");
    Absent3();
    NotContainsSplit("", 'o', "us-bellied thrush", "turdus");
  }

  lemma Absent5()
    ensures !Contains("rufous-bellied thrush", "turdus")
  {
    assert "rufous-bellied thrush" == "ru" + ['f'] + "ous-bellied thrush";
    NotContainsShort("ru", "turdus");
    Absent4();
    NotContainsSplit("ru", 'f', "ous-bellied thrush", "turdus");
  }

  lemma Lower0()
    ensures ToLower("Rufous-bellied Thrush") == "rufous-bellied thrush"
  {
    assert "Rufous-bellied Thrush" == "Rufous-bel" + "lied Thrush";
    ToLowerAppend("Rufous-bel", "lied Thrush");
    LowerHead0();
    LowerTail0();
    assert "rufous-bel" + "lied thrush" == "rufous-bellied thrush";
  }

  lemma LowerHead0()
    ensures ToLower("Rufous-bel") == "rufous-bel"
  {
    assert "Rufous-bel" == "Rufous" + "-bel";
    ToLowerAppend("Rufous", "-bel");
    assert ToLower("Rufous") == "rufous";
    assert ToLower("-bel") == "-bel";
  }

  lemma LowerTail0()
    ensures ToLower("lied Thrush") == "lied thrush"
  {
    assert "lied Thrush" == "lied " + "Thrush";
    ToLowerAppend("lied ", "Thrush");
    assert ToLower("lied ") == "lied ";
    assert ToLower("Thrush") == "thrush";
  }

  lemma Lower1()
    ensures ToLower("thrush") == "thrush"
  {
  }

  lemma Lower2()
    ensures ToLower("turdus") == "turdus"
  {
  }

  lemma Term0()
    ensures !Contains(ThrushLowered, ToLower("Turdus rufiventris"))
  {
    NotContainsLoweredMissing(ThrushLowered, "Turdus rufiventris", 'v');
  }

  lemma Term1()
    ensures Contains(ThrushLowered, ToLower("Rufous-bellied Thrush"))
  {
    Lower0();
    assert ThrushLowered == "" + "rufous-bellied thrush" + "";
    ContainsMiddle("", "rufous-bellied thrush", "");
  }

  lemma Term2()
    ensures !Contains(ThrushLowered, ToLower("Sabiá"))
  {
    NotContainsLoweredMissing(ThrushLowered, "Sabiá", 'a');
  }

  lemma Term3()
    ensures !Contains(ThrushLowered, ToLower("Sabiá-laranjeira"))
  {
    NotContainsLoweredMissing(ThrushLowered, "Sabiá-laranjeira", 'a');
  }

  lemma Term4()
    ensures Contains(ThrushLowered, ToLower("thrush"))
  {
    Lower1();
    assert ThrushLowered == "rufous-bellied " + "thrush" + "";
    ContainsMiddle("rufous-bellied ", "thrush", "");
  }

  lemma Term5()
    ensures !Contains(ThrushLowered, ToLower("turdus"))
  {
    Lower2();
    Absent5();
  }

  lemma Term6()
    ensures !Contains(ThrushLowered, ToLower("sabia"))
  {
    NotContainsLoweredMissing(ThrushLowered, "sabia", 'a');
  }

  lemma Term7()
    ensures !Contains(ThrushLowered, ToLower("Pitangus sulphuratus"))
  {
    NotContainsLoweredMissing(ThrushLowered, "Pitangus sulphuratus", 'P');
  }

  lemma Term8()
    ensures !Contains(ThrushLowered, ToLower("Great Kiskadee"))
  {
    NotContainsLoweredMissing(ThrushLowered, "Great Kiskadee", 'G');
  }

  lemma Term9()
    ensures !Contains(ThrushLowered, ToLower("Bem-te-vi"))
  {
    NotContainsLoweredMissing(ThrushLowered, "Bem-te-vi", 'm');
  }

  lemma Term10()
    ensures !Contains(ThrushLowered, ToLower("Bentevi"))
  {
    NotContainsLoweredMissing(ThrushLowered, "Bentevi", 'n');
  }

  lemma Term11()
    ensures !Contains(ThrushLowered, ToLower("kiskadee"))
  {
    NotContainsLoweredMissing(ThrushLowered, "kiskadee", 'k');
  }

  lemma Term12()
    ensures !Contains(ThrushLowered, ToLower("flycatcher"))
  {
    NotContainsLoweredMissing(ThrushLowered, "flycatcher", 'y');
  }

  lemma Term13()
    ensures !Contains(ThrushLowered, ToLower("bentevi"))
  {
    NotContainsLoweredMissing(ThrushLowered, "bentevi", 'n');
  }

  lemma Term14()
    ensures !Contains(ThrushLowered, ToLower("Furnarius rufus"))
  {
    NotContainsLoweredMissing(ThrushLowered, "Furnarius rufus", 'n');
  }

  lemma Term15()
    ensures !Contains(ThrushLowered, ToLower("Rufous Hornero"))
  {
    NotContainsLoweredMissing(ThrushLowered, "Rufous Hornero", 'n');
  }

  lemma Term16()
    ensures !Contains(ThrushLowered, ToLower("João-de-barro"))
  {
    NotContainsLoweredMissing(ThrushLowered, "João-de-barro", 'J');
  }

  lemma Term17()
    ensures !Contains(ThrushLowered, ToLower("Hornero"))
  {
    NotContainsLoweredMissing(ThrushLowered, "Hornero", 'n');
  }

  lemma Term18()
    ensures !Contains(ThrushLowered, ToLower("hornero"))
  {
    NotContainsLoweredMissing(ThrushLowered, "hornero", 'n');
  }

  lemma Term19()
    ensures !Contains(ThrushLowered, ToLower("ovenbird"))
  {
    NotContainsLoweredMissing(ThrushLowered, "ovenbird", 'v');
  }

  lemma Term20()
    ensures !Contains(ThrushLowered, ToLower("joao"))
  {
    NotContainsLoweredMissing(ThrushLowered, "joao", 'j');
  }

  lemma Term21()
    ensures !Contains(ThrushLowered, ToLower("Passer domesticus"))
  {
    NotContainsLoweredMissing(ThrushLowered, "Passer domesticus", 'P');
  }

  lemma Term22()
    ensures !Contains(ThrushLowered, ToLower("House Sparrow"))
  {
    NotContainsLoweredMissing(ThrushLowered, "House Sparrow", 'p');
  }

  lemma Term23()
    ensures !Contains(ThrushLowered, ToLower("Pardal"))
  {
    NotContainsLoweredMissing(ThrushLowered, "Pardal", 'P');
  }

  lemma Term24()
    ensures !Contains(ThrushLowered, ToLower("sparrow"))
  {
    NotContainsLoweredMissing(ThrushLowered, "sparrow", 'p');
  }

  lemma Term25()
    ensures !Contains(ThrushLowered, ToLower("finch"))
  {
    NotContainsLoweredMissing(ThrushLowered, "finch", 'n');
  }

  lemma Term26()
    ensures !Contains(ThrushLowered, ToLower("pardal"))
  {
    NotContainsLoweredMissing(ThrushLowered, "pardal", 'p');
  }

  lemma Term27()
    ensures !Contains(ThrushLowered, ToLower("Sicalis flaveola"))
  {
    NotContainsLoweredMissing(ThrushLowered, "Sicalis flaveola", 'c');
  }

  lemma Term28()
    ensures !Contains(ThrushLowered, ToLower("Saffron Finch"))
  {
    NotContainsLoweredMissing(ThrushLowered, "Saffron Finch", 'a');
  }

  lemma Term29()
    ensures !Contains(ThrushLowered, ToLower("Canário-da-terra"))
  {
    NotContainsLoweredMissing(ThrushLowered, "Canário-da-terra", 'C');
  }

  lemma Term30()
    ensures !Contains(ThrushLowered, ToLower("canary"))
  {
    NotContainsLoweredMissing(ThrushLowered, "canary", 'c');
  }

  lemma Term31()
    ensures !Contains(ThrushLowered, ToLower("saffron"))
  {
    NotContainsLoweredMissing(ThrushLowered, "saffron", 'a');
  }

  lemma Term32()
    ensures !Contains(ThrushLowered, ToLower("Trochilidae"))
  {
    NotContainsLoweredMissing(ThrushLowered, "Trochilidae", 'c');
  }

  lemma Term33()
    ensures !Contains(ThrushLowered, ToLower("Hummingbird"))
  {
    NotContainsLoweredMissing(ThrushLowered, "Hummingbird", 'm');
  }

  lemma Term34()
    ensures !Contains(ThrushLowered, ToLower("Beija-flor"))
  {
    NotContainsLoweredMissing(ThrushLowered, "Beija-flor", 'j');
  }

  lemma Term35()
    ensures !Contains(ThrushLowered, ToLower("Colibri"))
  {
    NotContainsLoweredMissing(ThrushLowered, "Colibri", 'C');
  }

  lemma Term36()
    ensures !Contains(ThrushLowered, ToLower("hummingbird"))
  {
    NotContainsLoweredMissing(ThrushLowered, "hummingbird", 'm');
  }

  lemma Term37()
    ensures !Contains(ThrushLowered, ToLower("colibri"))
  {
    NotContainsLoweredMissing(ThrushLowered, "colibri", 'c');
  }

  lemma Term38()
    ensures !Contains(ThrushLowered, ToLower("beijaflor"))
  {
    NotContainsLoweredMissing(ThrushLowered, "beijaflor", 'j');
  }

  lemma Term39()
    ensures !Contains(ThrushLowered, ToLower("Columbina talpacoti"))
  {
    NotContainsLoweredMissing(ThrushLowered, "Columbina talpacoti", 'C');
  }

  lemma Term40()
    ensures !Contains(ThrushLowered, ToLower("Ruddy Ground Dove"))
  {
    NotContainsLoweredMissing(ThrushLowered, "Ruddy Ground Dove", 'y');
  }

  lemma Term41()
    ensures !Contains(ThrushLowered, ToLower("Rolinha"))
  {
    NotContainsLoweredMissing(ThrushLowered, "Rolinha", 'n');
  }

  lemma Term42()
    ensures !Contains(ThrushLowered, ToLower("Rolinha-roxa"))
  {
    NotContainsLoweredMissing(ThrushLowered, "Rolinha-roxa", 'n');
  }

  lemma Term43()
    ensures !Contains(ThrushLowered, ToLower("dove"))
  {
    NotContainsLoweredMissing(ThrushLowered, "dove", 'v');
  }

  lemma Term44()
    ensures !Contains(ThrushLowered, ToLower("ground dove"))
  {
    NotContainsLoweredMissing(ThrushLowered, "ground dove", 'g');
  }

  lemma Term45()
    ensures !Contains(ThrushLowered, ToLower("rolinha"))
  {
    NotContainsLoweredMissing(ThrushLowered, "rolinha", 'n');
  }

  lemma Term46()
    ensures !Contains(ThrushLowered, ToLower("Tangara sayaca"))
  {
    NotContainsLoweredMissing(ThrushLowered, "Tangara sayaca", 'a');
  }

  lemma Term47()
    ensures !Contains(ThrushLowered, ToLower("Sayaca Tanager"))
  {
    NotContainsLoweredMissing(ThrushLowered, "Sayaca Tanager", 'a');
  }

  lemma Term48()
    ensures !Contains(ThrushLowered, ToLower("Sanhaço"))
  {
    NotContainsLoweredMissing(ThrushLowered, "Sanhaço", 'a');
  }

  lemma Term49()
    ensures !Contains(ThrushLowered, ToLower("Sanhaço-cinzento"))
  {
    NotContainsLoweredMissing(ThrushLowered, "Sanhaço-cinzento", 'a');
  }

  lemma Term50()
    ensures !Contains(ThrushLowered, ToLower("tanager"))
  {
    NotContainsLoweredMissing(ThrushLowered, "tanager", 'a');
  }

  lemma Term51()
    ensures !Contains(ThrushLowered, ToLower("sanhaco"))
  {
    NotContainsLoweredMissing(ThrushLowered, "sanhaco", 'a');
  }

  lemma Term52()
    ensures !Contains(ThrushLowered, ToLower("sayaca"))
  {
    NotContainsLoweredMissing(ThrushLowered, "sayaca", 'a');
  }

  lemma Term53()
    ensures !Contains(ThrushLowered, ToLower("Zonotrichia capensis"))
  {
    NotContainsLoweredMissing(ThrushLowered, "Zonotrichia capensis", 'Z');
  }

  lemma Term54()
    ensures !Contains(ThrushLowered, ToLower("Rufous-collared Sparrow"))
  {
    NotContainsShort(ThrushLowered, ToLower("Rufous-collared Sparrow"));
  }

  lemma Term55()
    ensures !Contains(ThrushLowered, ToLower("Tico-tico"))
  {
    NotContainsLoweredMissing(ThrushLowered, "Tico-tico", 'c');
  }

  lemma Term56()
    ensures !Contains(ThrushLowered, ToLower("zonotrichia"))
  {
    NotContainsLoweredMissing(ThrushLowered, "zonotrichia", 'z');
  }

  lemma Term57()
    ensures !Contains(ThrushLowered, ToLower("tico"))
  {
    NotContainsLoweredMissing(ThrushLowered, "tico", 'c');
  }

  lemma Term58()
    ensures !Contains(ThrushLowered, ToLower("Troglodytes musculus"))
  {
    NotContainsLoweredMissing(ThrushLowered, "Troglodytes musculus", 'g');
  }

  lemma Term59()
    ensures !Contains(ThrushLowered, ToLower("Southern House Wren"))
  {
    NotContainsLoweredMissing(ThrushLowered, "Southern House Wren", 'n');
  }

  lemma Term60()
    ensures !Contains(ThrushLowered, ToLower("Corruíra"))
  {
    NotContainsLoweredMissing(ThrushLowered, "Corruíra", 'C');
  }

  lemma Term61()
    ensures !Contains(ThrushLowered, ToLower("Garrincha"))
  {
    NotContainsLoweredMissing(ThrushLowered, "Garrincha", 'G');
  }

  lemma Term62()
    ensures !Contains(ThrushLowered, ToLower("wren"))
  {
    NotContainsLoweredMissing(ThrushLowered, "wren", 'w');
  }

  lemma Term63()
    ensures !Contains(ThrushLowered, ToLower("corruira"))
  {
    NotContainsLoweredMissing(ThrushLowered, "corruira", 'c');
  }

  lemma Term64()
    ensures !Contains(ThrushLowered, ToLower("house wren"))
  {
    NotContainsLoweredMissing(ThrushLowered, "house wren", 'w');
  }

  lemma Term65()
    ensures !Contains(ThrushLowered, ToLower("Picidae"))
  {
    NotContainsLoweredMissing(ThrushLowered, "Picidae", 'P');
  }

  lemma Term66()
    ensures !Contains(ThrushLowered, ToLower("Woodpecker"))
  {
    NotContainsLoweredMissing(ThrushLowered, "Woodpecker", 'W');
  }

  lemma Term67()
    ensures !Contains(ThrushLowered, ToLower("Pica-pau"))
  {
    NotContainsLoweredMissing(ThrushLowered, "Pica-pau", 'P');
  }

  lemma Term68()
    ensures !Contains(ThrushLowered, ToLower("woodpecker"))
  {
    NotContainsLoweredMissing(ThrushLowered, "woodpecker", 'w');
  }

  lemma Term69()
    ensures !Contains(ThrushLowered, ToLower("picapau"))
  {
    NotContainsLoweredMissing(ThrushLowered, "picapau", 'p');
  }

  lemma Term70()
    ensures !Contains(ThrushLowered, ToLower("picidae"))
  {
    NotContainsLoweredMissing(ThrushLowered, "picidae", 'p');
  }

  lemma Term71()
    ensures !Contains(ThrushLowered, ToLower("Hirundinidae"))
  {
    NotContainsLoweredMissing(ThrushLowered, "Hirundinidae", 'n');
  }

  lemma Term72()
    ensures !Contains(ThrushLowered, ToLower("Swallow"))
  {
    NotContainsLoweredMissing(ThrushLowered, "Swallow", 'w');
  }

  lemma Term73()
    ensures !Contains(ThrushLowered, ToLower("Andorinha"))
  {
    NotContainsLoweredMissing(ThrushLowered, "Andorinha", 'A');
  }

  lemma Term74()
    ensures !Contains(ThrushLowered, ToLower("swallow"))
  {
    NotContainsLoweredMissing(ThrushLowered, "swallow", 'w');
  }

  lemma Term75()
    ensures !Contains(ThrushLowered, ToLower("martin"))
  {
    NotContainsLoweredMissing(ThrushLowered, "martin", 'm');
  }

  lemma Term76()
    ensures !Contains(ThrushLowered, ToLower("andorinha"))
  {
    NotContainsLoweredMissing(ThrushLowered, "andorinha", 'a');
  }

  lemma Term77()
    ensures !Contains(ThrushLowered, ToLower("Columba livia"))
  {
    NotContainsLoweredMissing(ThrushLowered, "Columba livia", 'C');
  }

  lemma Term78()
    ensures !Contains(ThrushLowered, ToLower("Rock Pigeon"))
  {
    NotContainsLoweredMissing(ThrushLowered, "Rock Pigeon", 'c');
  }

  lemma Term79()
    ensures !Contains(ThrushLowered, ToLower("Pomba"))
  {
    NotContainsLoweredMissing(ThrushLowered, "Pomba", 'P');
  }

  lemma Term80()
    ensures !Contains(ThrushLowered, ToLower("Pombo"))
  {
    NotContainsLoweredMissing(ThrushLowered, "Pombo", 'P');
  }

  lemma Term81()
    ensures !Contains(ThrushLowered, ToLower("pigeon"))
  {
    NotContainsLoweredMissing(ThrushLowered, "pigeon", 'p');
  }

  lemma Term82()
    ensures !Contains(ThrushLowered, ToLower("pomba"))
  {
    NotContainsLoweredMissing(ThrushLowered, "pomba", 'p');
  }

  lemma Term83()
    ensures !Contains(ThrushLowered, ToLower("Vanellus chilensis"))
  {
    NotContainsLoweredMissing(ThrushLowered, "Vanellus chilensis", 'V');
  }

  lemma Term84()
    ensures !Contains(ThrushLowered, ToLower("Southern Lapwing"))
  {
    NotContainsLoweredMissing(ThrushLowered, "Southern Lapwing", 'n');
  }

  lemma Term85()
    ensures !Contains(ThrushLowered, ToLower("Quero-quero"))
  {
    NotContainsLoweredMissing(ThrushLowered, "Quero-quero", 'Q');
  }

  lemma Term86()
    ensures !Contains(ThrushLowered, ToLower("lapwing"))
  {
    NotContainsLoweredMissing(ThrushLowered, "lapwing", 'a');
  }

  lemma Term87()
    ensures !Contains(ThrushLowered, ToLower("plover"))
  {
    NotContainsLoweredMissing(ThrushLowered, "plover", 'p');
  }

  lemma Term88()
    ensures !Contains(ThrushLowered, ToLower("queroquero"))
  {
    NotContainsLoweredMissing(ThrushLowered, "queroquero", 'q');
  }

  lemma Term89()
    ensures !Contains(ThrushLowered, ToLower("Mimus saturninus"))
  {
    NotContainsLoweredMissing(ThrushLowered, "Mimus saturninus", 'M');
  }

  lemma Term90()
    ensures !Contains(ThrushLowered, ToLower("Chalk-browed Mockingbird"))
  {
    NotContainsShort(ThrushLowered, ToLower("Chalk-browed Mockingbird"));
  }

  lemma Term91()
    ensures !Contains(ThrushLowered, ToLower("Sabiá-do-campo"))
  {
    NotContainsLoweredMissing(ThrushLowered, "Sabiá-do-campo", 'a');
  }

  lemma Term92()
    ensures !Contains(ThrushLowered, ToLower("mockingbird"))
  {
    NotContainsLoweredMissing(ThrushLowered, "mockingbird", 'm');
  }

  lemma Term93()
    ensures !Contains(ThrushLowered, ToLower("mimus"))
  {
    NotContainsLoweredMissing(ThrushLowered, "mimus", 'm');
  }

}

/**
 * The resolver on three labels:
 *  - "Rufous-bellied Thrush", which only the first entry matches (a common name, +3,
 *    and the keyword "thrush", +1), resolves to "Sabiá-laranjeira";
 *  - "sabia", a keyword of the first and the last entry, ties at 1 and resolves to
 *    the entry listed first;
 *  - the empty label matches nothing.
 */
module SpeciesScenario {
  import opened Strings
  import opened BirdLabels
  import opened SpeciesResolver
  import opened ThrushTerms
  import Sorting

  const ThrushLabel: string := "Rufous-bellied Thrush"
  const SabiaLabel: string := "sabia"

  lemma ThrushScore0()
    ensures MatchScore(ThrushLowered, BirdSpeciesTable[0]) == 4
  {
    Term0();
    Term1();
    Term2();
    Term3();
    Term4();
    Term5();
    Term6();
    assert CountContained(ThrushLowered, []) == 0;
    assert ["Rufous-bellied Thrush"][..0] == [];
    assert CountContained(ThrushLowered, ["Rufous-bellied Thrush"]) == 1;
    assert ["Rufous-bellied Thrush", "Sabiá"][..1] == ["Rufous-bellied Thrush"];
    assert CountContained(ThrushLowered, ["Rufous-bellied Thrush", "Sabiá"]) == 1;
    assert ["Rufous-bellied Thrush", "Sabiá", "Sabiá-laranjeira"][..2] == ["Rufous-bellied Thrush", "Sabiá"];
    assert CountContained(ThrushLowered, ["Rufous-bellied Thrush", "Sabiá", "Sabiá-laranjeira"]) == 1;
    assert CountContained(ThrushLowered, []) == 0;
    assert ["thrush"][..0] == [];
    assert CountContained(ThrushLowered, ["thrush"]) == 1;
    assert ["thrush", "turdus"][..1] == ["thrush"];
    assert CountContained(ThrushLowered, ["thrush", "turdus"]) == 1;
    assert ["thrush", "turdus", "sabia"][..2] == ["thrush", "turdus"];
    assert CountContained(ThrushLowered, ["thrush", "turdus", "sabia"]) == 1;
  }

  lemma ThrushScore1()
    ensures MatchScore(ThrushLowered, BirdSpeciesTable[1]) == 0
  {
    Term7();
    Term8();
    Term9();
    Term10();
    Term11();
    Term12();
    Term13();
    assert CountContained(ThrushLowered, []) == 0;
    assert ["Great Kiskadee"][..0] == [];
    assert CountContained(ThrushLowered, ["Great Kiskadee"]) == 0;
    assert ["Great Kiskadee", "Bem-te-vi"][..1] == ["Great Kiskadee"];
    assert CountContained(ThrushLowered, ["Great Kiskadee", "Bem-te-vi"]) == 0;
    assert ["Great Kiskadee", "Bem-te-vi", "Bentevi"][..2] == ["Great Kiskadee", "Bem-te-vi"];
    assert CountContained(ThrushLowered, ["Great Kiskadee", "Bem-te-vi", "Bentevi"]) == 0;
    assert CountContained(ThrushLowered, []) == 0;
    assert ["kiskadee"][..0] == [];
    assert CountContained(ThrushLowered, ["kiskadee"]) == 0;
    assert ["kiskadee", "flycatcher"][..1] == ["kiskadee"];
    assert CountContained(ThrushLowered, ["kiskadee", "flycatcher"]) == 0;
    assert ["kiskadee", "flycatcher", "bentevi"][..2] == ["kiskadee", "flycatcher"];
    assert CountContained(ThrushLowered, ["kiskadee", "flycatcher", "bentevi"]) == 0;
  }

  lemma ThrushScore2()
    ensures MatchScore(ThrushLowered, BirdSpeciesTable[2]) == 0
  {
    Term14();
    Term15();
    Term16();
    Term17();
    Term18();
    Term19();
    Term20();
    assert CountContained(ThrushLowered, []) == 0;
    assert ["Rufous Hornero"][..0] == [];
    assert CountContained(ThrushLowered, ["Rufous Hornero"]) == 0;
    assert ["Rufous Hornero", "João-de-barro"][..1] == ["Rufous Hornero"];
    assert CountContained(ThrushLowered, ["Rufous Hornero", "João-de-barro"]) == 0;
    assert ["Rufous Hornero", "João-de-barro", "Hornero"][..2] == ["Rufous Hornero", "João-de-barro"];
    assert CountContained(ThrushLowered, ["Rufous Hornero", "João-de-barro", "Hornero"]) == 0;
    assert CountContained(ThrushLowered, []) == 0;
    assert ["hornero"][..0] == [];
    assert CountContained(ThrushLowered, ["hornero"]) == 0;
    assert ["hornero", "ovenbird"][..1] == ["hornero"];
    assert CountContained(ThrushLowered, ["hornero", "ovenbird"]) == 0;
    assert ["hornero", "ovenbird", "joao"][..2] == ["hornero", "ovenbird"];
    assert CountContained(ThrushLowered, ["hornero", "ovenbird", "joao"]) == 0;
  }

  lemma ThrushScore3()
    ensures MatchScore(ThrushLowered, BirdSpeciesTable[3]) == 0
  {
    Term21();
    Term22();
    Term23();
    Term24();
    Term25();
    Term26();
    assert CountContained(ThrushLowered, []) == 0;
    assert ["House Sparrow"][..0] == [];
    assert CountContained(ThrushLowered, ["House Sparrow"]) == 0;
    assert ["House Sparrow", "Pardal"][..1] == ["House Sparrow"];
    assert CountContained(ThrushLowered, ["House Sparrow", "Pardal"]) == 0;
    assert CountContained(ThrushLowered, []) == 0;
    assert ["sparrow"][..0] == [];
    assert CountContained(ThrushLowered, ["sparrow"]) == 0;
    assert ["sparrow", "finch"][..1] == ["sparrow"];
    assert CountContained(ThrushLowered, ["sparrow", "finch"]) == 0;
    assert ["sparrow", "finch", "pardal"][..2] == ["sparrow", "finch"];
    assert CountContained(ThrushLowered, ["sparrow", "finch", "pardal"]) == 0;
  }

  lemma ThrushScore4()
    ensures MatchScore(ThrushLowered, BirdSpeciesTable[4]) == 0
  {
    Term27();
    Term28();
    Term29();
    Term25();
    Term30();
    Term31();
    assert CountContained(ThrushLowered, []) == 0;
    assert ["Saffron Finch"][..0] == [];
    assert CountContained(ThrushLowered, ["Saffron Finch"]) == 0;
    assert ["Saffron Finch", "Canário-da-terra"][..1] == ["Saffron Finch"];
    assert CountContained(ThrushLowered, ["Saffron Finch", "Canário-da-terra"]) == 0;
    assert CountContained(ThrushLowered, []) == 0;
    assert ["finch"][..0] == [];
    assert CountContained(ThrushLowered, ["finch"]) == 0;
    assert ["finch", "canary"][..1] == ["finch"];
    assert CountContained(ThrushLowered, ["finch", "canary"]) == 0;
    assert ["finch", "canary", "saffron"][..2] == ["finch", "canary"];
    assert CountContained(ThrushLowered, ["finch", "canary", "saffron"]) == 0;
  }

  lemma ThrushScore5()
    ensures MatchScore(ThrushLowered, BirdSpeciesTable[5]) == 0
  {
    Term32();
    Term33();
    Term34();
    Term35();
    Term36();
    Term37();
    Term38();
    assert CountContained(ThrushLowered, []) == 0;
    assert ["Hummingbird"][..0] == [];
    assert CountContained(ThrushLowered, ["Hummingbird"]) == 0;
    assert ["Hummingbird", "Beija-flor"][..1] == ["Hummingbird"];
    assert CountContained(ThrushLowered, ["Hummingbird", "Beija-flor"]) == 0;
    assert ["Hummingbird", "Beija-flor", "Colibri"][..2] == ["Hummingbird", "Beija-flor"];
    assert CountContained(ThrushLowered, ["Hummingbird", "Beija-flor", "Colibri"]) == 0;
    assert CountContained(ThrushLowered, []) == 0;
    assert ["hummingbird"][..0] == [];
    assert CountContained(ThrushLowered, ["hummingbird"]) == 0;
    assert ["hummingbird", "colibri"][..1] == ["hummingbird"];
    assert CountContained(ThrushLowered, ["hummingbird", "colibri"]) == 0;
    assert ["hummingbird", "colibri", "beijaflor"][..2] == ["hummingbird", "colibri"];
    assert CountContained(ThrushLowered, ["hummingbird", "colibri", "beijaflor"]) == 0;
  }

  lemma ThrushScore6()
    ensures MatchScore(ThrushLowered, BirdSpeciesTable[6]) == 0
  {
    Term39();
    Term40();
    Term41();
    Term42();
    Term43();
    Term44();
    Term45();
    assert CountContained(ThrushLowered, []) == 0;
    assert ["Ruddy Ground Dove"][..0] == [];
    assert CountContained(ThrushLowered, ["Ruddy Ground Dove"]) == 0;
    assert ["Ruddy Ground Dove", "Rolinha"][..1] == ["Ruddy Ground Dove"];
    assert CountContained(ThrushLowered, ["Ruddy Ground Dove", "Rolinha"]) == 0;
    assert ["Ruddy Ground Dove", "Rolinha", "Rolinha-roxa"][..2] == ["Ruddy Ground Dove", "Rolinha"];
    assert CountContained(ThrushLowered, ["Ruddy Ground Dove", "Rolinha", "Rolinha-roxa"]) == 0;
    assert CountContained(ThrushLowered, []) == 0;
    assert ["dove"][..0] == [];
    assert CountContained(ThrushLowered, ["dove"]) == 0;
    assert ["dove", "ground dove"][..1] == ["dove"];
    assert CountContained(ThrushLowered, ["dove", "ground dove"]) == 0;
    assert ["dove", "ground dove", "rolinha"][..2] == ["dove", "ground dove"];
    assert CountContained(ThrushLowered, ["dove", "ground dove", "rolinha"]) == 0;
  }

  lemma ThrushScore7()
    ensures MatchScore(ThrushLowered, BirdSpeciesTable[7]) == 0
  {
    Term46();
    Term47();
    Term48();
    Term49();
    Term50();
    Term51();
    Term52();
    assert CountContained(ThrushLowered, []) == 0;
    assert ["Sayaca Tanager"][..0] == [];
    assert CountContained(ThrushLowered, ["Sayaca Tanager"]) == 0;
    assert ["Sayaca Tanager", "Sanhaço"][..1] == ["Sayaca Tanager"];
    assert CountContained(ThrushLowered, ["Sayaca Tanager", "Sanhaço"]) == 0;
    assert ["Sayaca Tanager", "Sanhaço", "Sanhaço-cinzento"][..2] == ["Sayaca Tanager", "Sanhaço"];
    assert CountContained(ThrushLowered, ["Sayaca Tanager", "Sanhaço", "Sanhaço-cinzento"]) == 0;
    assert CountContained(ThrushLowered, []) == 0;
    assert ["tanager"][..0] == [];
    assert CountContained(ThrushLowered, ["tanager"]) == 0;
    assert ["tanager", "sanhaco"][..1] == ["tanager"];
    assert CountContained(ThrushLowered, ["tanager", "sanhaco"]) == 0;
    assert ["tanager", "sanhaco", "sayaca"][..2] == ["tanager", "sanhaco"];
    assert CountContained(ThrushLowered, ["tanager", "sanhaco", "sayaca"]) == 0;
  }

  lemma ThrushScore8()
    ensures MatchScore(ThrushLowered, BirdSpeciesTable[8]) == 0
  {
    Term53();
    Term54();
    Term55();
    Term24();
    Term56();
    Term57();
    assert CountContained(ThrushLowered, []) == 0;
    assert ["Rufous-collared Sparrow"][..0] == [];
    assert CountContained(ThrushLowered, ["Rufous-collared Sparrow"]) == 0;
    assert ["Rufous-collared Sparrow", "Tico-tico"][..1] == ["Rufous-collared Sparrow"];
    assert CountContained(ThrushLowered, ["Rufous-collared Sparrow", "Tico-tico"]) == 0;
    assert CountContained(ThrushLowered, []) == 0;
    assert ["sparrow"][..0] == [];
    assert CountContained(ThrushLowered, ["sparrow"]) == 0;
    assert ["sparrow", "zonotrichia"][..1] == ["sparrow"];
    assert CountContained(ThrushLowered, ["sparrow", "zonotrichia"]) == 0;
    assert ["sparrow", "zonotrichia", "tico"][..2] == ["sparrow", "zonotrichia"];
    assert CountContained(ThrushLowered, ["sparrow", "zonotrichia", "tico"]) == 0;
  }

  lemma ThrushScore9()
    ensures MatchScore(ThrushLowered, BirdSpeciesTable[9]) == 0
  {
    Term58();
    Term59();
    Term60();
    Term61();
    Term62();
    Term63();
    Term64();
    assert CountContained(ThrushLowered, []) == 0;
    assert ["Southern House Wren"][..0] == [];
    assert CountContained(ThrushLowered, ["Southern House Wren"]) == 0;
    assert ["Southern House Wren", "Corruíra"][..1] == ["Southern House Wren"];
    assert CountContained(ThrushLowered, ["Southern House Wren", "Corruíra"]) == 0;
    assert ["Southern House Wren", "Corruíra", "Garrincha"][..2] == ["Southern House Wren", "Corruíra"];
    assert CountContained(ThrushLowered, ["Southern House Wren", "Corruíra", "Garrincha"]) == 0;
    assert CountContained(ThrushLowered, []) == 0;
    assert ["wren"][..0] == [];
    assert CountContained(ThrushLowered, ["wren"]) == 0;
    assert ["wren", "corruira"][..1] == ["wren"];
    assert CountContained(ThrushLowered, ["wren", "corruira"]) == 0;
    assert ["wren", "corruira", "house wren"][..2] == ["wren", "corruira"];
    assert CountContained(ThrushLowered, ["wren", "corruira", "house wren"]) == 0;
  }

  lemma ThrushScore10()
    ensures MatchScore(ThrushLowered, BirdSpeciesTable[10]) == 0
  {
    Term65();
    Term66();
    Term67();
    Term68();
    Term69();
    Term70();
    assert CountContained(ThrushLowered, []) == 0;
    assert ["Woodpecker"][..0] == [];
    assert CountContained(ThrushLowered, ["Woodpecker"]) == 0;
    assert ["Woodpecker", "Pica-pau"][..1] == ["Woodpecker"];
    assert CountContained(ThrushLowered, ["Woodpecker", "Pica-pau"]) == 0;
    assert CountContained(ThrushLowered, []) == 0;
    assert ["woodpecker"][..0] == [];
    assert CountContained(ThrushLowered, ["woodpecker"]) == 0;
    assert ["woodpecker", "picapau"][..1] == ["woodpecker"];
    assert CountContained(ThrushLowered, ["woodpecker", "picapau"]) == 0;
    assert ["woodpecker", "picapau", "picidae"][..2] == ["woodpecker", "picapau"];
    assert CountContained(ThrushLowered, ["woodpecker", "picapau", "picidae"]) == 0;
  }

  lemma ThrushScore11()
    ensures MatchScore(ThrushLowered, BirdSpeciesTable[11]) == 0
  {
    Term71();
    Term72();
    Term73();
    Term74();
    Term75();
    Term76();
    assert CountContained(ThrushLowered, []) == 0;
    assert ["Swallow"][..0] == [];
    assert CountContained(ThrushLowered, ["Swallow"]) == 0;
    assert ["Swallow", "Andorinha"][..1] == ["Swallow"];
    assert CountContained(ThrushLowered, ["Swallow", "Andorinha"]) == 0;
    assert CountContained(ThrushLowered, []) == 0;
    assert ["swallow"][..0] == [];
    assert CountContained(ThrushLowered, ["swallow"]) == 0;
    assert ["swallow", "martin"][..1] == ["swallow"];
    assert CountContained(ThrushLowered, ["swallow", "martin"]) == 0;
    assert ["swallow", "martin", "andorinha"][..2] == ["swallow", "martin"];
    assert CountContained(ThrushLowered, ["swallow", "martin", "andorinha"]) == 0;
  }

  lemma ThrushScore12()
    ensures MatchScore(ThrushLowered, BirdSpeciesTable[12]) == 0
  {
    Term77();
    Term78();
    Term79();
    Term80();
    Term81();
    Term43();
    Term82();
    assert CountContained(ThrushLowered, []) == 0;
    assert ["Rock Pigeon"][..0] == [];
    assert CountContained(ThrushLowered, ["Rock Pigeon"]) == 0;
    assert ["Rock Pigeon", "Pomba"][..1] == ["Rock Pigeon"];
    assert CountContained(ThrushLowered, ["Rock Pigeon", "Pomba"]) == 0;
    assert ["Rock Pigeon", "Pomba", "Pombo"][..2] == ["Rock Pigeon", "Pomba"];
    assert CountContained(ThrushLowered, ["Rock Pigeon", "Pomba", "Pombo"]) == 0;
    assert CountContained(ThrushLowered, []) == 0;
    assert ["pigeon"][..0] == [];
    assert CountContained(ThrushLowered, ["pigeon"]) == 0;
    assert ["pigeon", "dove"][..1] == ["pigeon"];
    assert CountContained(ThrushLowered, ["pigeon", "dove"]) == 0;
    assert ["pigeon", "dove", "pomba"][..2] == ["pigeon", "dove"];
    assert CountContained(ThrushLowered, ["pigeon", "dove", "pomba"]) == 0;
  }

  lemma ThrushScore13()
    ensures MatchScore(ThrushLowered, BirdSpeciesTable[13]) == 0
  {
    Term83();
    Term84();
    Term85();
    Term86();
    Term87();
    Term88();
    assert CountContained(ThrushLowered, []) == 0;
    assert ["Southern Lapwing"][..0] == [];
    assert CountContained(ThrushLowered, ["Southern Lapwing"]) == 0;
    assert ["Southern Lapwing", "Quero-quero"][..1] == ["Southern Lapwing"];
    assert CountContained(ThrushLowered, ["Southern Lapwing", "Quero-quero"]) == 0;
    assert CountContained(ThrushLowered, []) == 0;
    assert ["lapwing"][..0] == [];
    assert CountContained(ThrushLowered, ["lapwing"]) == 0;
    assert ["lapwing", "plover"][..1] == ["lapwing"];
    assert CountContained(ThrushLowered, ["lapwing", "plover"]) == 0;
    assert ["lapwing", "plover", "queroquero"][..2] == ["lapwing", "plover"];
    assert CountContained(ThrushLowered, ["lapwing", "plover", "queroquero"]) == 0;
  }

  lemma ThrushScore14()
    ensures MatchScore(ThrushLowered, BirdSpeciesTable[14]) == 0
  {
    Term89();
    Term90();
    Term91();
    Term92();
    Term93();
    Term6();
    assert CountContained(ThrushLowered, []) == 0;
    assert ["Chalk-browed Mockingbird"][..0] == [];
    assert CountContained(ThrushLowered, ["Chalk-browed Mockingbird"]) == 0;
    assert ["Chalk-browed Mockingbird", "Sabiá-do-campo"][..1] == ["Chalk-browed Mockingbird"];
    assert CountContained(ThrushLowered, ["Chalk-browed Mockingbird", "Sabiá-do-campo"]) == 0;
    assert CountContained(ThrushLowered, []) == 0;
    assert ["mockingbird"][..0] == [];
    assert CountContained(ThrushLowered, ["mockingbird"]) == 0;
    assert ["mockingbird", "mimus"][..1] == ["mockingbird"];
    assert CountContained(ThrushLowered, ["mockingbird", "mimus"]) == 0;
    assert ["mockingbird", "mimus", "sabia"][..2] == ["mockingbird", "mimus"];
    assert CountContained(ThrushLowered, ["mockingbird", "mimus", "sabia"]) == 0;
  }

  lemma ThrushOthersScoreZero()
    ensures forall i :: 1 <= i < |BirdSpeciesTable| ==> MatchScore(ThrushLowered, BirdSpeciesTable[i]) == 0
  {
    forall i | 1 <= i < |BirdSpeciesTable|
      ensures MatchScore(ThrushLowered, BirdSpeciesTable[i]) == 0
    {
      if i == 1 {
        ThrushScore1();
      } else if i == 2 {
        ThrushScore2();
      } else if i == 3 {
        ThrushScore3();
      } else if i == 4 {
        ThrushScore4();
      } else if i == 5 {
        ThrushScore5();
      } else if i == 6 {
        ThrushScore6();
      } else if i == 7 {
        ThrushScore7();
      } else if i == 8 {
        ThrushScore8();
      } else if i == 9 {
        ThrushScore9();
      } else if i == 10 {
        ThrushScore10();
      } else if i == 11 {
        ThrushScore11();
      } else if i == 12 {
        ThrushScore12();
      } else if i == 13 {
        ThrushScore13();
      } else {
        ThrushScore14();
      }
    }
  }

  /** A label naming the rufous-bellied thrush resolves to its table entry. */
  lemma ThrushResolvesToSabiaLaranjeira()
    ensures KnownSpecies(ThrushLabel) == "Sabiá-laranjeira"
    ensures IsBirdClass(ThrushLabel)
  {
    Lower0();
    ThrushScore0();
    ThrushOthersScoreZero();
    Sorting.FirstArgMaxUnique(MatchScores(ThrushLowered), 0);
    BirdClassIffGeneralOrKnown(ThrushLabel);
  }

  lemma SabiaScore0()
    ensures MatchScore(SabiaLabel, BirdSpeciesTable[0]) == 1
  {
    NotContainsShort(SabiaLabel, ToLower("Turdus rufiventris"));
    NotContainsShort(SabiaLabel, ToLower("Rufous-bellied Thrush"));
    assert ToLower("Sabiá") == "sabiá";
    NotContainsMissingChar(SabiaLabel, "sabiá", 'á');
    NotContainsShort(SabiaLabel, ToLower("Sabiá-laranjeira"));
    NotContainsShort(SabiaLabel, ToLower("thrush"));
    NotContainsShort(SabiaLabel, ToLower("turdus"));
    assert ToLower("sabia") == "sabia";
    ContainsMiddle("", "sabia", "");
    assert SabiaLabel == "" + "sabia" + "";
    assert CountContained(SabiaLabel, []) == 0;
    assert ["Rufous-bellied Thrush"][..0] == [];
    assert CountContained(SabiaLabel, ["Rufous-bellied Thrush"]) == 0;
    assert ["Rufous-bellied Thrush", "Sabiá"][..1] == ["Rufous-bellied Thrush"];
    assert CountContained(SabiaLabel, ["Rufous-bellied Thrush", "Sabiá"]) == 0;
    assert ["Rufous-bellied Thrush", "Sabiá", "Sabiá-laranjeira"][..2] == ["Rufous-bellied Thrush", "Sabiá"];
    assert CountContained(SabiaLabel, ["Rufous-bellied Thrush", "Sabiá", "Sabiá-laranjeira"]) == 0;
    assert CountContained(SabiaLabel, []) == 0;
    assert ["thrush"][..0] == [];
    assert CountContained(SabiaLabel, ["thrush"]) == 0;
    assert ["thrush", "turdus"][..1] == ["thrush"];
    assert CountContained(SabiaLabel, ["thrush", "turdus"]) == 0;
    assert ["thrush", "turdus", "sabia"][..2] == ["thrush", "turdus"];
    assert CountContained(SabiaLabel, ["thrush", "turdus", "sabia"]) == 1;
  }

  lemma SabiaScore1()
    ensures MatchScore(SabiaLabel, BirdSpeciesTable[1]) == 0
  {
    NotContainsShort(SabiaLabel, ToLower("Pitangus sulphuratus"));
    NotContainsShort(SabiaLabel, ToLower("Great Kiskadee"));
    NotContainsShort(SabiaLabel, ToLower("Bem-te-vi"));
    NotContainsShort(SabiaLabel, ToLower("Bentevi"));
    NotContainsShort(SabiaLabel, ToLower("kiskadee"));
    NotContainsShort(SabiaLabel, ToLower("flycatcher"));
    NotContainsShort(SabiaLabel, ToLower("bentevi"));
    assert CountContained(SabiaLabel, []) == 0;
    assert ["Great Kiskadee"][..0] == [];
    assert CountContained(SabiaLabel, ["Great Kiskadee"]) == 0;
    assert ["Great Kiskadee", "Bem-te-vi"][..1] == ["Great Kiskadee"];
    assert CountContained(SabiaLabel, ["Great Kiskadee", "Bem-te-vi"]) == 0;
    assert ["Great Kiskadee", "Bem-te-vi", "Bentevi"][..2] == ["Great Kiskadee", "Bem-te-vi"];
    assert CountContained(SabiaLabel, ["Great Kiskadee", "Bem-te-vi", "Bentevi"]) == 0;
    assert CountContained(SabiaLabel, []) == 0;
    assert ["kiskadee"][..0] == [];
    assert CountContained(SabiaLabel, ["kiskadee"]) == 0;
    assert ["kiskadee", "flycatcher"][..1] == ["kiskadee"];
    assert CountContained(SabiaLabel, ["kiskadee", "flycatcher"]) == 0;
    assert ["kiskadee", "flycatcher", "bentevi"][..2] == ["kiskadee", "flycatcher"];
    assert CountContained(SabiaLabel, ["kiskadee", "flycatcher", "bentevi"]) == 0;
  }

  lemma SabiaScore2()
    ensures MatchScore(SabiaLabel, BirdSpeciesTable[2]) == 0
  {
    NotContainsShort(SabiaLabel, ToLower("Furnarius rufus"));
    NotContainsShort(SabiaLabel, ToLower("Rufous Hornero"));
    NotContainsShort(SabiaLabel, ToLower("João-de-barro"));
    NotContainsShort(SabiaLabel, ToLower("Hornero"));
    NotContainsShort(SabiaLabel, ToLower("hornero"));
    NotContainsShort(SabiaLabel, ToLower("ovenbird"));
    assert ToLower("joao") == "joao";
    NotContainsMissingChar(SabiaLabel, "joao", 'j');
    assert CountContained(SabiaLabel, []) == 0;
    assert ["Rufous Hornero"][..0] == [];
    assert CountContained(SabiaLabel, ["Rufous Hornero"]) == 0;
    assert ["Rufous Hornero", "João-de-barro"][..1] == ["Rufous Hornero"];
    assert CountContained(SabiaLabel, ["Rufous Hornero", "João-de-barro"]) == 0;
    assert ["Rufous Hornero", "João-de-barro", "Hornero"][..2] == ["Rufous Hornero", "João-de-barro"];
    assert CountContained(SabiaLabel, ["Rufous Hornero", "João-de-barro", "Hornero"]) == 0;
    assert CountContained(SabiaLabel, []) == 0;
    assert ["hornero"][..0] == [];
    assert CountContained(SabiaLabel, ["hornero"]) == 0;
    assert ["hornero", "ovenbird"][..1] == ["hornero"];
    assert CountContained(SabiaLabel, ["hornero", "ovenbird"]) == 0;
    assert ["hornero", "ovenbird", "joao"][..2] == ["hornero", "ovenbird"];
    assert CountContained(SabiaLabel, ["hornero", "ovenbird", "joao"]) == 0;
  }

  lemma SabiaScore3()
    ensures MatchScore(SabiaLabel, BirdSpeciesTable[3]) == 0
  {
    NotContainsShort(SabiaLabel, ToLower("Passer domesticus"));
    NotContainsShort(SabiaLabel, ToLower("House Sparrow"));
    NotContainsShort(SabiaLabel, ToLower("Pardal"));
    NotContainsShort(SabiaLabel, ToLower("sparrow"));
    assert ToLower("finch") == "finch";
    NotContainsMissingChar(SabiaLabel, "finch", 'f');
    NotContainsShort(SabiaLabel, ToLower("pardal"));
    assert CountContained(SabiaLabel, []) == 0;
    assert ["House Sparrow"][..0] == [];
    assert CountContained(SabiaLabel, ["House Sparrow"]) == 0;
    assert ["House Sparrow", "Pardal"][..1] == ["House Sparrow"];
    assert CountContained(SabiaLabel, ["House Sparrow", "Pardal"]) == 0;
    assert CountContained(SabiaLabel, []) == 0;
    assert ["sparrow"][..0] == [];
    assert CountContained(SabiaLabel, ["sparrow"]) == 0;
    assert ["sparrow", "finch"][..1] == ["sparrow"];
    assert CountContained(SabiaLabel, ["sparrow", "finch"]) == 0;
    assert ["sparrow", "finch", "pardal"][..2] == ["sparrow", "finch"];
    assert CountContained(SabiaLabel, ["sparrow", "finch", "pardal"]) == 0;
  }

  lemma SabiaScore4()
    ensures MatchScore(SabiaLabel, BirdSpeciesTable[4]) == 0
  {
    NotContainsShort(SabiaLabel, ToLower("Sicalis flaveola"));
    NotContainsShort(SabiaLabel, ToLower("Saffron Finch"));
    NotContainsShort(SabiaLabel, ToLower("Canário-da-terra"));
    assert ToLower("finch") == "finch";
    NotContainsMissingChar(SabiaLabel, "finch", 'f');
    NotContainsShort(SabiaLabel, ToLower("canary"));
    NotContainsShort(SabiaLabel, ToLower("saffron"));
    assert CountContained(SabiaLabel, []) == 0;
    assert ["Saffron Finch"][..0] == [];
    assert CountContained(SabiaLabel, ["Saffron Finch"]) == 0;
    assert ["Saffron Finch", "Canário-da-terra"][..1] == ["Saffron Finch"];
    assert CountContained(SabiaLabel, ["Saffron Finch", "Canário-da-terra"]) == 0;
    assert CountContained(SabiaLabel, []) == 0;
    assert ["finch"][..0] == [];
    assert CountContained(SabiaLabel, ["finch"]) == 0;
    assert ["finch", "canary"][..1] == ["finch"];
    assert CountContained(SabiaLabel, ["finch", "canary"]) == 0;
    assert ["finch", "canary", "saffron"][..2] == ["finch", "canary"];
    assert CountContained(SabiaLabel, ["finch", "canary", "saffron"]) == 0;
  }

  lemma SabiaScore5()
    ensures MatchScore(SabiaLabel, BirdSpeciesTable[5]) == 0
  {
    NotContainsShort(SabiaLabel, ToLower("Trochilidae"));
    NotContainsShort(SabiaLabel, ToLower("Hummingbird"));
    NotContainsShort(SabiaLabel, ToLower("Beija-flor"));
    NotContainsShort(SabiaLabel, ToLower("Colibri"));
    NotContainsShort(SabiaLabel, ToLower("hummingbird"));
    NotContainsShort(SabiaLabel, ToLower("colibri"));
    NotContainsShort(SabiaLabel, ToLower("beijaflor"));
    assert CountContained(SabiaLabel, []) == 0;
    assert ["Hummingbird"][..0] == [];
    assert CountContained(SabiaLabel, ["Hummingbird"]) == 0;
    assert ["Hummingbird", "Beija-flor"][..1] == ["Hummingbird"];
    assert CountContained(SabiaLabel, ["Hummingbird", "Beija-flor"]) == 0;
    assert ["Hummingbird", "Beija-flor", "Colibri"][..2] == ["Hummingbird", "Beija-flor"];
    assert CountContained(SabiaLabel, ["Hummingbird", "Beija-flor", "Colibri"]) == 0;
    assert CountContained(SabiaLabel, []) == 0;
    assert ["hummingbird"][..0] == [];
    assert CountContained(SabiaLabel, ["hummingbird"]) == 0;
    assert ["hummingbird", "colibri"][..1] == ["hummingbird"];
    assert CountContained(SabiaLabel, ["hummingbird", "colibri"]) == 0;
    assert ["hummingbird", "colibri", "beijaflor"][..2] == ["hummingbird", "colibri"];
    assert CountContained(SabiaLabel, ["hummingbird", "colibri", "beijaflor"]) == 0;
  }

  lemma SabiaScore6()
    ensures MatchScore(SabiaLabel, BirdSpeciesTable[6]) == 0
  {
    NotContainsShort(SabiaLabel, ToLower("Columbina talpacoti"));
    NotContainsShort(SabiaLabel, ToLower("Ruddy Ground Dove"));
    NotContainsShort(SabiaLabel, ToLower("Rolinha"));
    NotContainsShort(SabiaLabel, ToLower("Rolinha-roxa"));
    assert ToLower("dove") == "dove";
    NotContainsMissingChar(SabiaLabel, "dove", 'd');
    NotContainsShort(SabiaLabel, ToLower("ground dove"));
    NotContainsShort(SabiaLabel, ToLower("rolinha"));
    assert CountContained(SabiaLabel, []) == 0;
    assert ["Ruddy Ground Dove"][..0] == [];
    assert CountContained(SabiaLabel, ["Ruddy Ground Dove"]) == 0;
    assert ["Ruddy Ground Dove", "Rolinha"][..1] == ["Ruddy Ground Dove"];
    assert CountContained(SabiaLabel, ["Ruddy Ground Dove", "Rolinha"]) == 0;
    assert ["Ruddy Ground Dove", "Rolinha", "Rolinha-roxa"][..2] == ["Ruddy Ground Dove", "Rolinha"];
    assert CountContained(SabiaLabel, ["Ruddy Ground Dove", "Rolinha", "Rolinha-roxa"]) == 0;
    assert CountContained(SabiaLabel, []) == 0;
    assert ["dove"][..0] == [];
    assert CountContained(SabiaLabel, ["dove"]) == 0;
    assert ["dove", "ground dove"][..1] == ["dove"];
    assert CountContained(SabiaLabel, ["dove", "ground dove"]) == 0;
    assert ["dove", "ground dove", "rolinha"][..2] == ["dove", "ground dove"];
    assert CountContained(SabiaLabel, ["dove", "ground dove", "rolinha"]) == 0;
  }

  lemma SabiaScore7()
    ensures MatchScore(SabiaLabel, BirdSpeciesTable[7]) == 0
  {
    NotContainsShort(SabiaLabel, ToLower("Tangara sayaca"));
    NotContainsShort(SabiaLabel, ToLower("Sayaca Tanager"));
    NotContainsShort(SabiaLabel, ToLower("Sanhaço"));
    NotContainsShort(SabiaLabel, ToLower("Sanhaço-cinzento"));
    NotContainsShort(SabiaLabel, ToLower("tanager"));
    NotContainsShort(SabiaLabel, ToLower("sanhaco"));
    NotContainsShort(SabiaLabel, ToLower("sayaca"));
    assert CountContained(SabiaLabel, []) == 0;
    assert ["Sayaca Tanager"][..0] == [];
    assert CountContained(SabiaLabel, ["Sayaca Tanager"]) == 0;
    assert ["Sayaca Tanager", "Sanhaço"][..1] == ["Sayaca Tanager"];
    assert CountContained(SabiaLabel, ["Sayaca Tanager", "Sanhaço"]) == 0;
    assert ["Sayaca Tanager", "Sanhaço", "Sanhaço-cinzento"][..2] == ["Sayaca Tanager", "Sanhaço"];
    assert CountContained(SabiaLabel, ["Sayaca Tanager", "Sanhaço", "Sanhaço-cinzento"]) == 0;
    assert CountContained(SabiaLabel, []) == 0;
    assert ["tanager"][..0] == [];
    assert CountContained(SabiaLabel, ["tanager"]) == 0;
    assert ["tanager", "sanhaco"][..1] == ["tanager"];
    assert CountContained(SabiaLabel, ["tanager", "sanhaco"]) == 0;
    assert ["tanager", "sanhaco", "sayaca"][..2] == ["tanager", "sanhaco"];
    assert CountContained(SabiaLabel, ["tanager", "sanhaco", "sayaca"]) == 0;
  }

  lemma SabiaScore8()
    ensures MatchScore(SabiaLabel, BirdSpeciesTable[8]) == 0
  {
    NotContainsShort(SabiaLabel, ToLower("Zonotrichia capensis"));
    NotContainsShort(SabiaLabel, ToLower("Rufous-collared Sparrow"));
    NotContainsShort(SabiaLabel, ToLower("Tico-tico"));
    NotContainsShort(SabiaLabel, ToLower("sparrow"));
    NotContainsShort(SabiaLabel, ToLower("zonotrichia"));
    assert ToLower("tico") == "tico";
    NotContainsMissingChar(SabiaLabel, "tico", 't');
    assert CountContained(SabiaLabel, []) == 0;
    assert ["Rufous-collared Sparrow"][..0] == [];
    assert CountContained(SabiaLabel, ["Rufous-collared Sparrow"]) == 0;
    assert ["Rufous-collared Sparrow", "Tico-tico"][..1] == ["Rufous-collared Sparrow"];
    assert CountContained(SabiaLabel, ["Rufous-collared Sparrow", "Tico-tico"]) == 0;
    assert CountContained(SabiaLabel, []) == 0;
    assert ["sparrow"][..0] == [];
    assert CountContained(SabiaLabel, ["sparrow"]) == 0;
    assert ["sparrow", "zonotrichia"][..1] == ["sparrow"];
    assert CountContained(SabiaLabel, ["sparrow", "zonotrichia"]) == 0;
    assert ["sparrow", "zonotrichia", "tico"][..2] == ["sparrow", "zonotrichia"];
    assert CountContained(SabiaLabel, ["sparrow", "zonotrichia", "tico"]) == 0;
  }

  lemma SabiaScore9()
    ensures MatchScore(SabiaLabel, BirdSpeciesTable[9]) == 0
  {
    NotContainsShort(SabiaLabel, ToLower("Troglodytes musculus"));
    NotContainsShort(SabiaLabel, ToLower("Southern House Wren"));
    NotContainsShort(SabiaLabel, ToLower("Corruíra"));
    NotContainsShort(SabiaLabel, ToLower("Garrincha"));
    assert ToLower("wren") == "wren";
    NotContainsMissingChar(SabiaLabel, "wren", 'w');
    NotContainsShort(SabiaLabel, ToLower("corruira"));
    NotContainsShort(SabiaLabel, ToLower("house wren"));
    assert CountContained(SabiaLabel, []) == 0;
    assert ["Southern House Wren"][..0] == [];
    assert CountContained(SabiaLabel, ["Southern House Wren"]) == 0;
    assert ["Southern House Wren", "Corruíra"][..1] == ["Southern House Wren"];
    assert CountContained(SabiaLabel, ["Southern House Wren", "Corruíra"]) == 0;
    assert ["Southern House Wren", "Corruíra", "Garrincha"][..2] == ["Southern House Wren", "Corruíra"];
    assert CountContained(SabiaLabel, ["Southern House Wren", "Corruíra", "Garrincha"]) == 0;
    assert CountContained(SabiaLabel, []) == 0;
    assert ["wren"][..0] == [];
    assert CountContained(SabiaLabel, ["wren"]) == 0;
    assert ["wren", "corruira"][..1] == ["wren"];
    assert CountContained(SabiaLabel, ["wren", "corruira"]) == 0;
    assert ["wren", "corruira", "house wren"][..2] == ["wren", "corruira"];
    assert CountContained(SabiaLabel, ["wren", "corruira", "house wren"]) == 0;
  }

  lemma SabiaScore10()
    ensures MatchScore(SabiaLabel, BirdSpeciesTable[10]) == 0
  {
    NotContainsShort(SabiaLabel, ToLower("Picidae"));
    NotContainsShort(SabiaLabel, ToLower("Woodpecker"));
    NotContainsShort(SabiaLabel, ToLower("Pica-pau"));
    NotContainsShort(SabiaLabel, ToLower("woodpecker"));
    NotContainsShort(SabiaLabel, ToLower("picapau"));
    NotContainsShort(SabiaLabel, ToLower("picidae"));
    assert CountContained(SabiaLabel, []) == 0;
    assert ["Woodpecker"][..0] == [];
    assert CountContained(SabiaLabel, ["Woodpecker"]) == 0;
    assert ["Woodpecker", "Pica-pau"][..1] == ["Woodpecker"];
    assert CountContained(SabiaLabel, ["Woodpecker", "Pica-pau"]) == 0;
    assert CountContained(SabiaLabel, []) == 0;
    assert ["woodpecker"][..0] == [];
    assert CountContained(SabiaLabel, ["woodpecker"]) == 0;
    assert ["woodpecker", "picapau"][..1] == ["woodpecker"];
    assert CountContained(SabiaLabel, ["woodpecker", "picapau"]) == 0;
    assert ["woodpecker", "picapau", "picidae"][..2] == ["woodpecker", "picapau"];
    assert CountContained(SabiaLabel, ["woodpecker", "picapau", "picidae"]) == 0;
  }

  lemma SabiaScore11()
    ensures MatchScore(SabiaLabel, BirdSpeciesTable[11]) == 0
  {
    NotContainsShort(SabiaLabel, ToLower("Hirundinidae"));
    NotContainsShort(SabiaLabel, ToLower("Swallow"));
    NotContainsShort(SabiaLabel, ToLower("Andorinha"));
    NotContainsShort(SabiaLabel, ToLower("swallow"));
    NotContainsShort(SabiaLabel, ToLower("martin"));
    NotContainsShort(SabiaLabel, ToLower("andorinha"));
    assert CountContained(SabiaLabel, []) == 0;
    assert ["Swallow"][..0] == [];
    assert CountContained(SabiaLabel, ["Swallow"]) == 0;
    assert ["Swallow", "Andorinha"][..1] == ["Swallow"];
    assert CountContained(SabiaLabel, ["Swallow", "Andorinha"]) == 0;
    assert CountContained(SabiaLabel, []) == 0;
    assert ["swallow"][..0] == [];
    assert CountContained(SabiaLabel, ["swallow"]) == 0;
    assert ["swallow", "martin"][..1] == ["swallow"];
    assert CountContained(SabiaLabel, ["swallow", "martin"]) == 0;
    assert ["swallow", "martin", "andorinha"][..2] == ["swallow", "martin"];
    assert CountContained(SabiaLabel, ["swallow", "martin", "andorinha"]) == 0;
  }

  lemma SabiaScore12()
    ensures MatchScore(SabiaLabel, BirdSpeciesTable[12]) == 0
  {
    NotContainsShort(SabiaLabel, ToLower("Columba livia"));
    NotContainsShort(SabiaLabel, ToLower("Rock Pigeon"));
    assert ToLower("Pomba") == "pomba";
    NotContainsMissingChar(SabiaLabel, "pomba", 'p');
    assert ToLower("Pombo") == "pombo";
    NotContainsMissingChar(SabiaLabel, "pombo", 'p');
    NotContainsShort(SabiaLabel, ToLower("pigeon"));
    assert ToLower("dove") == "dove";
    NotContainsMissingChar(SabiaLabel, "dove", 'd');
    assert ToLower("pomba") == "pomba";
    NotContainsMissingChar(SabiaLabel, "pomba", 'p');
    assert CountContained(SabiaLabel, []) == 0;
    assert ["Rock Pigeon"][..0] == [];
    assert CountContained(SabiaLabel, ["Rock Pigeon"]) == 0;
    assert ["Rock Pigeon", "Pomba"][..1] == ["Rock Pigeon"];
    assert CountContained(SabiaLabel, ["Rock Pigeon", "Pomba"]) == 0;
    assert ["Rock Pigeon", "Pomba", "Pombo"][..2] == ["Rock Pigeon", "Pomba"];
    assert CountContained(SabiaLabel, ["Rock Pigeon", "Pomba", "Pombo"]) == 0;
    assert CountContained(SabiaLabel, []) == 0;
    assert ["pigeon"][..0] == [];
    assert CountContained(SabiaLabel, ["pigeon"]) == 0;
    assert ["pigeon", "dove"][..1] == ["pigeon"];
    assert CountContained(SabiaLabel, ["pigeon", "dove"]) == 0;
    assert ["pigeon", "dove", "pomba"][..2] == ["pigeon", "dove"];
    assert CountContained(SabiaLabel, ["pigeon", "dove", "pomba"]) == 0;
  }

  lemma SabiaScore13()
    ensures MatchScore(SabiaLabel, BirdSpeciesTable[13]) == 0
  {
    NotContainsShort(SabiaLabel, ToLower("Vanellus chilensis"));
    NotContainsShort(SabiaLabel, ToLower("Southern Lapwing"));
    NotContainsShort(SabiaLabel, ToLower("Quero-quero"));
    NotContainsShort(SabiaLabel, ToLower("lapwing"));
    NotContainsShort(SabiaLabel, ToLower("plover"));
    NotContainsShort(SabiaLabel, ToLower("queroquero"));
    assert CountContained(SabiaLabel, []) == 0;
    assert ["Southern Lapwing"][..0] == [];
    assert CountContained(SabiaLabel, ["Southern Lapwing"]) == 0;
    assert ["Southern Lapwing", "Quero-quero"][..1] == ["Southern Lapwing"];
    assert CountContained(SabiaLabel, ["Southern Lapwing", "Quero-quero"]) == 0;
    assert CountContained(SabiaLabel, []) == 0;
    assert ["lapwing"][..0] == [];
    assert CountContained(SabiaLabel, ["lapwing"]) == 0;
    assert ["lapwing", "plover"][..1] == ["lapwing"];
    assert CountContained(SabiaLabel, ["lapwing", "plover"]) == 0;
    assert ["lapwing", "plover", "queroquero"][..2] == ["lapwing", "plover"];
    assert CountContained(SabiaLabel, ["lapwing", "plover", "queroquero"]) == 0;
  }

  lemma SabiaScore14()
    ensures MatchScore(SabiaLabel, BirdSpeciesTable[14]) == 1
  {
    NotContainsShort(SabiaLabel, ToLower("Mimus saturninus"));
    NotContainsShort(SabiaLabel, ToLower("Chalk-browed Mockingbird"));
    NotContainsShort(SabiaLabel, ToLower("Sabiá-do-campo"));
    NotContainsShort(SabiaLabel, ToLower("mockingbird"));
    assert ToLower("mimus") == "mimus";
    NotContainsMissingChar(SabiaLabel, "mimus", 'm');
    assert ToLower("sabia") == "sabia";
    ContainsMiddle("", "sabia", "");
    assert SabiaLabel == "" + "sabia" + "";
    assert CountContained(SabiaLabel, []) == 0;
    assert ["Chalk-browed Mockingbird"][..0] == [];
    assert CountContained(SabiaLabel, ["Chalk-browed Mockingbird"]) == 0;
    assert ["Chalk-browed Mockingbird", "Sabiá-do-campo"][..1] == ["Chalk-browed Mockingbird"];
    assert CountContained(SabiaLabel, ["Chalk-browed Mockingbird", "Sabiá-do-campo"]) == 0;
    assert CountContained(SabiaLabel, []) == 0;
    assert ["mockingbird"][..0] == [];
    assert CountContained(SabiaLabel, ["mockingbird"]) == 0;
    assert ["mockingbird", "mimus"][..1] == ["mockingbird"];
    assert CountContained(SabiaLabel, ["mockingbird", "mimus"]) == 0;
    assert ["mockingbird", "mimus", "sabia"][..2] == ["mockingbird", "mimus"];
    assert CountContained(SabiaLabel, ["mockingbird", "mimus", "sabia"]) == 1;
  }

  lemma SabiaMiddleScoreZero()
    ensures forall i :: 1 <= i < |BirdSpeciesTable| - 1 ==> MatchScore(SabiaLabel, BirdSpeciesTable[i]) == 0
  {
    forall i | 1 <= i < |BirdSpeciesTable| - 1
      ensures MatchScore(SabiaLabel, BirdSpeciesTable[i]) == 0
    {
      if i == 1 {
        SabiaScore1();
      } else if i == 2 {
        SabiaScore2();
      } else if i == 3 {
        SabiaScore3();
      } else if i == 4 {
        SabiaScore4();
      } else if i == 5 {
        SabiaScore5();
      } else if i == 6 {
        SabiaScore6();
      } else if i == 7 {
        SabiaScore7();
      } else if i == 8 {
        SabiaScore8();
      } else if i == 9 {
        SabiaScore9();
      } else if i == 10 {
        SabiaScore10();
      } else if i == 11 {
        SabiaScore11();
      } else if i == 12 {
        SabiaScore12();
      } else {
        SabiaScore13();
      }
    }
  }

  /** A tie between two species goes to the one listed first. */
  lemma SabiaResolvesToFirstListed()
    ensures MatchScore(SabiaLabel, BirdSpeciesTable[14]) == MatchScore(SabiaLabel, BirdSpeciesTable[0]) > 0
    ensures KnownSpecies(SabiaLabel) == "Sabiá-laranjeira"
    ensures IsBirdClass(SabiaLabel)
  {
    assert ToLower(SabiaLabel) == SabiaLabel;
    SabiaScore0();
    SabiaMiddleScoreZero();
    SabiaScore14();
    Sorting.FirstArgMaxUnique(MatchScores(SabiaLabel), 0);
    BirdClassIffGeneralOrKnown(SabiaLabel);
  }

  lemma EmptyScore0()
    ensures MatchScore("", BirdSpeciesTable[0]) == 0
  {
    NotContainsShort("", ToLower("Turdus rufiventris"));
    NotContainsShort("", ToLower("Rufous-bellied Thrush"));
    NotContainsShort("", ToLower("Sabiá"));
    NotContainsShort("", ToLower("Sabiá-laranjeira"));
    NotContainsShort("", ToLower("thrush"));
    NotContainsShort("", ToLower("turdus"));
    NotContainsShort("", ToLower("sabia"));
    assert CountContained("", []) == 0;
    assert ["Rufous-bellied Thrush"][..0] == [];
    assert CountContained("", ["Rufous-bellied Thrush"]) == 0;
    assert ["Rufous-bellied Thrush", "Sabiá"][..1] == ["Rufous-bellied Thrush"];
    assert CountContained("", ["Rufous-bellied Thrush", "Sabiá"]) == 0;
    assert ["Rufous-bellied Thrush", "Sabiá", "Sabiá-laranjeira"][..2] == ["Rufous-bellied Thrush", "Sabiá"];
    assert CountContained("", ["Rufous-bellied Thrush", "Sabiá", "Sabiá-laranjeira"]) == 0;
    assert CountContained("", []) == 0;
    assert ["thrush"][..0] == [];
    assert CountContained("", ["thrush"]) == 0;
    assert ["thrush", "turdus"][..1] == ["thrush"];
    assert CountContained("", ["thrush", "turdus"]) == 0;
    assert ["thrush", "turdus", "sabia"][..2] == ["thrush", "turdus"];
    assert CountContained("", ["thrush", "turdus", "sabia"]) == 0;
  }

  lemma EmptyScore1()
    ensures MatchScore("", BirdSpeciesTable[1]) == 0
  {
    NotContainsShort("", ToLower("Pitangus sulphuratus"));
    NotContainsShort("", ToLower("Great Kiskadee"));
    NotContainsShort("", ToLower("Bem-te-vi"));
    NotContainsShort("", ToLower("Bentevi"));
    NotContainsShort("", ToLower("kiskadee"));
    NotContainsShort("", ToLower("flycatcher"));
    NotContainsShort("", ToLower("bentevi"));
    assert CountContained("", []) == 0;
    assert ["Great Kiskadee"][..0] == [];
    assert CountContained("", ["Great Kiskadee"]) == 0;
    assert ["Great Kiskadee", "Bem-te-vi"][..1] == ["Great Kiskadee"];
    assert CountContained("", ["Great Kiskadee", "Bem-te-vi"]) == 0;
    assert ["Great Kiskadee", "Bem-te-vi", "Bentevi"][..2] == ["Great Kiskadee", "Bem-te-vi"];
    assert CountContained("", ["Great Kiskadee", "Bem-te-vi", "Bentevi"]) == 0;
    assert CountContained("", []) == 0;
    assert ["kiskadee"][..0] == [];
    assert CountContained("", ["kiskadee"]) == 0;
    assert ["kiskadee", "flycatcher"][..1] == ["kiskadee"];
    assert CountContained("", ["kiskadee", "flycatcher"]) == 0;
    assert ["kiskadee", "flycatcher", "bentevi"][..2] == ["kiskadee", "flycatcher"];
    assert CountContained("", ["kiskadee", "flycatcher", "bentevi"]) == 0;
  }

  lemma EmptyScore2()
    ensures MatchScore("", BirdSpeciesTable[2]) == 0
  {
    NotContainsShort("", ToLower("Furnarius rufus"));
    NotContainsShort("", ToLower("Rufous Hornero"));
    NotContainsShort("", ToLower("João-de-barro"));
    NotContainsShort("", ToLower("Hornero"));
    NotContainsShort("", ToLower("hornero"));
    NotContainsShort("", ToLower("ovenbird"));
    NotContainsShort("", ToLower("joao"));
    assert CountContained("", []) == 0;
    assert ["Rufous Hornero"][..0] == [];
    assert CountContained("", ["Rufous Hornero"]) == 0;
    assert ["Rufous Hornero", "João-de-barro"][..1] == ["Rufous Hornero"];
    assert CountContained("", ["Rufous Hornero", "João-de-barro"]) == 0;
    assert ["Rufous Hornero", "João-de-barro", "Hornero"][..2] == ["Rufous Hornero", "João-de-barro"];
    assert CountContained("", ["Rufous Hornero", "João-de-barro", "Hornero"]) == 0;
    assert CountContained("", []) == 0;
    assert ["hornero"][..0] == [];
    assert CountContained("", ["hornero"]) == 0;
    assert ["hornero", "ovenbird"][..1] == ["hornero"];
    assert CountContained("", ["hornero", "ovenbird"]) == 0;
    assert ["hornero", "ovenbird", "joao"][..2] == ["hornero", "ovenbird"];
    assert CountContained("", ["hornero", "ovenbird", "joao"]) == 0;
  }

  lemma EmptyScore3()
    ensures MatchScore("", BirdSpeciesTable[3]) == 0
  {
    NotContainsShort("", ToLower("Passer domesticus"));
    NotContainsShort("", ToLower("House Sparrow"));
    NotContainsShort("", ToLower("Pardal"));
    NotContainsShort("", ToLower("sparrow"));
    NotContainsShort("", ToLower("finch"));
    NotContainsShort("", ToLower("pardal"));
    assert CountContained("", []) == 0;
    assert ["House Sparrow"][..0] == [];
    assert CountContained("", ["House Sparrow"]) == 0;
    assert ["House Sparrow", "Pardal"][..1] == ["House Sparrow"];
    assert CountContained("", ["House Sparrow", "Pardal"]) == 0;
    assert CountContained("", []) == 0;
    assert ["sparrow"][..0] == [];
    assert CountContained("", ["sparrow"]) == 0;
    assert ["sparrow", "finch"][..1] == ["sparrow"];
    assert CountContained("", ["sparrow", "finch"]) == 0;
    assert ["sparrow", "finch", "pardal"][..2] == ["sparrow", "finch"];
    assert CountContained("", ["sparrow", "finch", "pardal"]) == 0;
  }

  lemma EmptyScore4()
    ensures MatchScore("", BirdSpeciesTable[4]) == 0
  {
    NotContainsShort("", ToLower("Sicalis flaveola"));
    NotContainsShort("", ToLower("Saffron Finch"));
    NotContainsShort("", ToLower("Canário-da-terra"));
    NotContainsShort("", ToLower("finch"));
    NotContainsShort("", ToLower("canary"));
    NotContainsShort("", ToLower("saffron"));
    assert CountContained("", []) == 0;
    assert ["Saffron Finch"][..0] == [];
    assert CountContained("", ["Saffron Finch"]) == 0;
    assert ["Saffron Finch", "Canário-da-terra"][..1] == ["Saffron Finch"];
    assert CountContained("", ["Saffron Finch", "Canário-da-terra"]) == 0;
    assert CountContained("", []) == 0;
    assert ["finch"][..0] == [];
    assert CountContained("", ["finch"]) == 0;
    assert ["finch", "canary"][..1] == ["finch"];
    assert CountContained("", ["finch", "canary"]) == 0;
    assert ["finch", "canary", "saffron"][..2] == ["finch", "canary"];
    assert CountContained("", ["finch", "canary", "saffron"]) == 0;
  }

  lemma EmptyScore5()
    ensures MatchScore("", BirdSpeciesTable[5]) == 0
  {
    NotContainsShort("", ToLower("Trochilidae"));
    NotContainsShort("", ToLower("Hummingbird"));
    NotContainsShort("", ToLower("Beija-flor"));
    NotContainsShort("", ToLower("Colibri"));
    NotContainsShort("", ToLower("hummingbird"));
    NotContainsShort("", ToLower("colibri"));
    NotContainsShort("", ToLower("beijaflor"));
    assert CountContained("", []) == 0;
    assert ["Hummingbird"][..0] == [];
    assert CountContained("", ["Hummingbird"]) == 0;
    assert ["Hummingbird", "Beija-flor"][..1] == ["Hummingbird"];
    assert CountContained("", ["Hummingbird", "Beija-flor"]) == 0;
    assert ["Hummingbird", "Beija-flor", "Colibri"][..2] == ["Hummingbird", "Beija-flor"];
    assert CountContained("", ["Hummingbird", "Beija-flor", "Colibri"]) == 0;
    assert CountContained("", []) == 0;
    assert ["hummingbird"][..0] == [];
    assert CountContained("", ["hummingbird"]) == 0;
    assert ["hummingbird", "colibri"][..1] == ["hummingbird"];
    assert CountContained("", ["hummingbird", "colibri"]) == 0;
    assert ["hummingbird", "colibri", "beijaflor"][..2] == ["hummingbird", "colibri"];
    assert CountContained("", ["hummingbird", "colibri", "beijaflor"]) == 0;
  }

  lemma EmptyScore6()
    ensures MatchScore("", BirdSpeciesTable[6]) == 0
  {
    NotContainsShort("", ToLower("Columbina talpacoti"));
    NotContainsShort("", ToLower("Ruddy Ground Dove"));
    NotContainsShort("", ToLower("Rolinha"));
    NotContainsShort("", ToLower("Rolinha-roxa"));
    NotContainsShort("", ToLower("dove"));
    NotContainsShort("", ToLower("ground dove"));
    NotContainsShort("", ToLower("rolinha"));
    assert CountContained("", []) == 0;
    assert ["Ruddy Ground Dove"][..0] == [];
    assert CountContained("", ["Ruddy Ground Dove"]) == 0;
    assert ["Ruddy Ground Dove", "Rolinha"][..1] == ["Ruddy Ground Dove"];
    assert CountContained("", ["Ruddy Ground Dove", "Rolinha"]) == 0;
    assert ["Ruddy Ground Dove", "Rolinha", "Rolinha-roxa"][..2] == ["Ruddy Ground Dove", "Rolinha"];
    assert CountContained("", ["Ruddy Ground Dove", "Rolinha", "Rolinha-roxa"]) == 0;
    assert CountContained("", []) == 0;
    assert ["dove"][..0] == [];
    assert CountContained("", ["dove"]) == 0;
    assert ["dove", "ground dove"][..1] == ["dove"];
    assert CountContained("", ["dove", "ground dove"]) == 0;
    assert ["dove", "ground dove", "rolinha"][..2] == ["dove", "ground dove"];
    assert CountContained("", ["dove", "ground dove", "rolinha"]) == 0;
  }

  lemma EmptyScore7()
    ensures MatchScore("", BirdSpeciesTable[7]) == 0
  {
    NotContainsShort("", ToLower("Tangara sayaca"));
    NotContainsShort("", ToLower("Sayaca Tanager"));
    NotContainsShort("", ToLower("Sanhaço"));
    NotContainsShort("", ToLower("Sanhaço-cinzento"));
    NotContainsShort("", ToLower("tanager"));
    NotContainsShort("", ToLower("sanhaco"));
    NotContainsShort("", ToLower("sayaca"));
    assert CountContained("", []) == 0;
    assert ["Sayaca Tanager"][..0] == [];
    assert CountContained("", ["Sayaca Tanager"]) == 0;
    assert ["Sayaca Tanager", "Sanhaço"][..1] == ["Sayaca Tanager"];
    assert CountContained("", ["Sayaca Tanager", "Sanhaço"]) == 0;
    assert ["Sayaca Tanager", "Sanhaço", "Sanhaço-cinzento"][..2] == ["Sayaca Tanager", "Sanhaço"];
    assert CountContained("", ["Sayaca Tanager", "Sanhaço", "Sanhaço-cinzento"]) == 0;
    assert CountContained("", []) == 0;
    assert ["tanager"][..0] == [];
    assert CountContained("", ["tanager"]) == 0;
    assert ["tanager", "sanhaco"][..1] == ["tanager"];
    assert CountContained("", ["tanager", "sanhaco"]) == 0;
    assert ["tanager", "sanhaco", "sayaca"][..2] == ["tanager", "sanhaco"];
    assert CountContained("", ["tanager", "sanhaco", "sayaca"]) == 0;
  }

  lemma EmptyScore8()
    ensures MatchScore("", BirdSpeciesTable[8]) == 0
  {
    NotContainsShort("", ToLower("Zonotrichia capensis"));
    NotContainsShort("", ToLower("Rufous-collared Sparrow"));
    NotContainsShort("", ToLower("Tico-tico"));
    NotContainsShort("", ToLower("sparrow"));
    NotContainsShort("", ToLower("zonotrichia"));
    NotContainsShort("", ToLower("tico"));
    assert CountContained("", []) == 0;
    assert ["Rufous-collared Sparrow"][..0] == [];
    assert CountContained("", ["Rufous-collared Sparrow"]) == 0;
    assert ["Rufous-collared Sparrow", "Tico-tico"][..1] == ["Rufous-collared Sparrow"];
    assert CountContained("", ["Rufous-collared Sparrow", "Tico-tico"]) == 0;
    assert CountContained("", []) == 0;
    assert ["sparrow"][..0] == [];
    assert CountContained("", ["sparrow"]) == 0;
    assert ["sparrow", "zonotrichia"][..1] == ["sparrow"];
    assert CountContained("", ["sparrow", "zonotrichia"]) == 0;
    assert ["sparrow", "zonotrichia", "tico"][..2] == ["sparrow", "zonotrichia"];
    assert CountContained("", ["sparrow", "zonotrichia", "tico"]) == 0;
  }

  lemma EmptyScore9()
    ensures MatchScore("", BirdSpeciesTable[9]) == 0
  {
    NotContainsShort("", ToLower("Troglodytes musculus"));
    NotContainsShort("", ToLower("Southern House Wren"));
    NotContainsShort("", ToLower("Corruíra"));
    NotContainsShort("", ToLower("Garrincha"));
    NotContainsShort("", ToLower("wren"));
    NotContainsShort("", ToLower("corruira"));
    NotContainsShort("", ToLower("house wren"));
    assert CountContained("", []) == 0;
    assert ["Southern House Wren"][..0] == [];
    assert CountContained("", ["Southern House Wren"]) == 0;
    assert ["Southern House Wren", "Corruíra"][..1] == ["Southern House Wren"];
    assert CountContained("", ["Southern House Wren", "Corruíra"]) == 0;
    assert ["Southern House Wren", "Corruíra", "Garrincha"][..2] == ["Southern House Wren", "Corruíra"];
    assert CountContained("", ["Southern House Wren", "Corruíra", "Garrincha"]) == 0;
    assert CountContained("", []) == 0;
    assert ["wren"][..0] == [];
    assert CountContained("", ["wren"]) == 0;
    assert ["wren", "corruira"][..1] == ["wren"];
    assert CountContained("", ["wren", "corruira"]) == 0;
    assert ["wren", "corruira", "house wren"][..2] == ["wren", "corruira"];
    assert CountContained("", ["wren", "corruira", "house wren"]) == 0;
  }

  lemma EmptyScore10()
    ensures MatchScore("", BirdSpeciesTable[10]) == 0
  {
    NotContainsShort("", ToLower("Picidae"));
    NotContainsShort("", ToLower("Woodpecker"));
    NotContainsShort("", ToLower("Pica-pau"));
    NotContainsShort("", ToLower("woodpecker"));
    NotContainsShort("", ToLower("picapau"));
    NotContainsShort("", ToLower("picidae"));
    assert CountContained("", []) == 0;
    assert ["Woodpecker"][..0] == [];
    assert CountContained("", ["Woodpecker"]) == 0;
    assert ["Woodpecker", "Pica-pau"][..1] == ["Woodpecker"];
    assert CountContained("", ["Woodpecker", "Pica-pau"]) == 0;
    assert CountContained("", []) == 0;
    assert ["woodpecker"][..0] == [];
    assert CountContained("", ["woodpecker"]) == 0;
    assert ["woodpecker", "picapau"][..1] == ["woodpecker"];
    assert CountContained("", ["woodpecker", "picapau"]) == 0;
    assert ["woodpecker", "picapau", "picidae"][..2] == ["woodpecker", "picapau"];
    assert CountContained("", ["woodpecker", "picapau", "picidae"]) == 0;
  }

  lemma EmptyScore11()
    ensures MatchScore("", BirdSpeciesTable[11]) == 0
  {
    NotContainsShort("", ToLower("Hirundinidae"));
    NotContainsShort("", ToLower("Swallow"));
    NotContainsShort("", ToLower("Andorinha"));
    NotContainsShort("", ToLower("swallow"));
    NotContainsShort("", ToLower("martin"));
    NotContainsShort("", ToLower("andorinha"));
    assert CountContained("", []) == 0;
    assert ["Swallow"][..0] == [];
    assert CountContained("", ["Swallow"]) == 0;
    assert ["Swallow", "Andorinha"][..1] == ["Swallow"];
    assert CountContained("", ["Swallow", "Andorinha"]) == 0;
    assert CountContained("", []) == 0;
    assert ["swallow"][..0] == [];
    assert CountContained("", ["swallow"]) == 0;
    assert ["swallow", "martin"][..1] == ["swallow"];
    assert CountContained("", ["swallow", "martin"]) == 0;
    assert ["swallow", "martin", "andorinha"][..2] == ["swallow", "martin"];
    assert CountContained("", ["swallow", "martin", "andorinha"]) == 0;
  }

  lemma EmptyScore12()
    ensures MatchScore("", BirdSpeciesTable[12]) == 0
  {
    NotContainsShort("", ToLower("Columba livia"));
    NotContainsShort("", ToLower("Rock Pigeon"));
    NotContainsShort("", ToLower("Pomba"));
    NotContainsShort("", ToLower("Pombo"));
    NotContainsShort("", ToLower("pigeon"));
    NotContainsShort("", ToLower("dove"));
    NotContainsShort("", ToLower("pomba"));
    assert CountContained("", []) == 0;
    assert ["Rock Pigeon"][..0] == [];
    assert CountContained("", ["Rock Pigeon"]) == 0;
    assert ["Rock Pigeon", "Pomba"][..1] == ["Rock Pigeon"];
    assert CountContained("", ["Rock Pigeon", "Pomba"]) == 0;
    assert ["Rock Pigeon", "Pomba", "Pombo"][..2] == ["Rock Pigeon", "Pomba"];
    assert CountContained("", ["Rock Pigeon", "Pomba", "Pombo"]) == 0;
    assert CountContained("", []) == 0;
    assert ["pigeon"][..0] == [];
    assert CountContained("", ["pigeon"]) == 0;
    assert ["pigeon", "dove"][..1] == ["pigeon"];
    assert CountContained("", ["pigeon", "dove"]) == 0;
    assert ["pigeon", "dove", "pomba"][..2] == ["pigeon", "dove"];
    assert CountContained("", ["pigeon", "dove", "pomba"]) == 0;
  }

  lemma EmptyScore13()
    ensures MatchScore("", BirdSpeciesTable[13]) == 0
  {
    NotContainsShort("", ToLower("Vanellus chilensis"));
    NotContainsShort("", ToLower("Southern Lapwing"));
    NotContainsShort("", ToLower("Quero-quero"));
    NotContainsShort("", ToLower("lapwing"));
    NotContainsShort("", ToLower("plover"));
    NotContainsShort("", ToLower("queroquero"));
    assert CountContained("", []) == 0;
    assert ["Southern Lapwing"][..0] == [];
    assert CountContained("", ["Southern Lapwing"]) == 0;
    assert ["Southern Lapwing", "Quero-quero"][..1] == ["Southern Lapwing"];
    assert CountContained("", ["Southern Lapwing", "Quero-quero"]) == 0;
    assert CountContained("", []) == 0;
    assert ["lapwing"][..0] == [];
    assert CountContained("", ["lapwing"]) == 0;
    assert ["lapwing", "plover"][..1] == ["lapwing"];
    assert CountContained("", ["lapwing", "plover"]) == 0;
    assert ["lapwing", "plover", "queroquero"][..2] == ["lapwing", "plover"];
    assert CountContained("", ["lapwing", "plover", "queroquero"]) == 0;
  }

  lemma EmptyScore14()
    ensures MatchScore("", BirdSpeciesTable[14]) == 0
  {
    NotContainsShort("", ToLower("Mimus saturninus"));
    NotContainsShort("", ToLower("Chalk-browed Mockingbird"));
    NotContainsShort("", ToLower("Sabiá-do-campo"));
    NotContainsShort("", ToLower("mockingbird"));
    NotContainsShort("", ToLower("mimus"));
    NotContainsShort("", ToLower("sabia"));
    assert CountContained("", []) == 0;
    assert ["Chalk-browed Mockingbird"][..0] == [];
    assert CountContained("", ["Chalk-browed Mockingbird"]) == 0;
    assert ["Chalk-browed Mockingbird", "Sabiá-do-campo"][..1] == ["Chalk-browed Mockingbird"];
    assert CountContained("", ["Chalk-browed Mockingbird", "Sabiá-do-campo"]) == 0;
    assert CountContained("", []) == 0;
    assert ["mockingbird"][..0] == [];
    assert CountContained("", ["mockingbird"]) == 0;
    assert ["mockingbird", "mimus"][..1] == ["mockingbird"];
    assert CountContained("", ["mockingbird", "mimus"]) == 0;
    assert ["mockingbird", "mimus", "sabia"][..2] == ["mockingbird", "mimus"];
    assert CountContained("", ["mockingbird", "mimus", "sabia"]) == 0;
  }

  lemma EmptyScores()
    ensures forall i :: 0 <= i < |BirdSpeciesTable| ==> MatchScore("", BirdSpeciesTable[i]) == 0
  {
    forall i | 0 <= i < |BirdSpeciesTable|
      ensures MatchScore("", BirdSpeciesTable[i]) == 0
    {
      if i == 0 {
        EmptyScore0();
      } else if i == 1 {
        EmptyScore1();
      } else if i == 2 {
        EmptyScore2();
      } else if i == 3 {
        EmptyScore3();
      } else if i == 4 {
        EmptyScore4();
      } else if i == 5 {
        EmptyScore5();
      } else if i == 6 {
        EmptyScore6();
      } else if i == 7 {
        EmptyScore7();
      } else if i == 8 {
        EmptyScore8();
      } else if i == 9 {
        EmptyScore9();
      } else if i == 10 {
        EmptyScore10();
      } else if i == 11 {
        EmptyScore11();
      } else if i == 12 {
        EmptyScore12();
      } else if i == 13 {
        EmptyScore13();
      } else {
        EmptyScore14();
      }
    }
  }

  lemma EmptyHasNoGeneralKeyword()
    ensures !ContainsAny("", GeneralBirdKeywords)
  {
    forall i | 0 <= i < |GeneralBirdKeywords|
      ensures !Contains("", ToLower(GeneralBirdKeywords[i]))
    {
      if i == 0 {
        NotContainsShort("", ToLower("bird"));
      } else if i == 1 {
        NotContainsShort("", ToLower("ave"));
      } else if i == 2 {
        NotContainsShort("", ToLower("fowl"));
      } else if i == 3 {
        NotContainsShort("", ToLower("cock"));
      } else if i == 4 {
        NotContainsShort("", ToLower("hen"));
      } else if i == 5 {
        NotContainsShort("", ToLower("passaro"));
      } else if i == 6 {
        NotContainsShort("", ToLower("pássaro"));
      } else if i == 7 {
        NotContainsShort("", ToLower("feather"));
      } else if i == 8 {
        NotContainsShort("", ToLower("wing"));
      } else if i == 9 {
        NotContainsShort("", ToLower("beak"));
      } else {
        NotContainsShort("", ToLower("nest"));
      }
    }
  }

  /** The empty label scores nothing and is not a bird class. */
  lemma EmptyLabelMatchesNothing()
    ensures KnownSpecies("") == UnknownSpecies
    ensures !IsBirdClass("")
  {
    assert ToLower("") == "";
    EmptyScores();
    KnownSpeciesMeaning("");
    EmptyHasNoGeneralKeyword();
    BirdClassIffGeneralOrKnown("");
  }
}
