/** The about page's avatar badges: the initials drawn from a name, and the
    badges of the partner list. */
module AboutPage {
  import opened Text

  /** `n[0]?.toUpperCase()`: the first character upper-cased; an empty word
      would give `undefined`, which `join` writes as nothing. */
  function InitialOf(word: string): string {
    if word == [] then [] else [UpperChar(word[0])]
  }

  /** `getInitials`: split at single spaces, drop the empty pieces, keep the
      first two words, and join their upper-cased first characters. At most
      two characters come out, each already upper-case. */
  function Initials(name: string): (r: string)
    ensures |r| <= 2
    ensures forall i :: 0 <= i < |r| ==> UpperChar(r[i]) == r[i]
  {
    var words := Words(name);
    var firstTwo := words[..if |words| < 2 then |words| else 2];
    var parts := seq(|firstTwo|, i requires 0 <= i < |firstTwo| => InitialOf(firstTwo[i]));
    assert forall i :: 0 <= i < |parts| ==> firstTwo[i] in words;
    JoinSingletons(parts);
    Join(parts, [])
  }

  /** One character per word, for at most two words: the i-th character is
      the upper-cased first character of the i-th word. */
  lemma InitialsShape(name: string)
    ensures |Initials(name)| == if |Words(name)| < 2 then |Words(name)| else 2
    ensures |Initials(name)| <= 2
    ensures forall i :: 0 <= i < |Initials(name)| ==> Initials(name)[i] == UpperChar(Words(name)[i][0])
  {
    var words := Words(name);
    var firstTwo := words[..if |words| < 2 then |words| else 2];
    var parts := seq(|firstTwo|, i requires 0 <= i < |firstTwo| => InitialOf(firstTwo[i]));
    assert forall i :: 0 <= i < |parts| ==> firstTwo[i] in words;
    JoinSingletons(parts);
  }

  /** A name of spaces only, or the empty name, has no initials. */
  lemma BlankNameHasNoInitials(name: string)
    requires forall i :: 0 <= i < |name| ==> name[i] == ' '
    ensures Initials(name) == []
  {
    NoWordsInSpaces(name);
  }

  /** Runs of spaces do not matter: doubling the space between two parts of a
      name leaves the initials unchanged. */
  lemma ExtraSpacesIgnored(a: string, b: string)
    ensures Initials(a + " " + " " + b) == Initials(a + " " + b)
  {
    assert a + " " + " " + b == (a + " ") + " " + b;
    assert a + " " + [] == a + " ";
    WordsAround(a + " ", b);
    WordsAround(a, []);
    WordsAround(a, b);
    NoWordsInSpaces([]);
    assert Words(a + " " + " " + b) == Words(a + " " + b);
  }

  /** Words beyond the second do not show. */
  lemma LaterWordsIgnored(a: string, b: string, rest: string)
    requires a != [] && ' ' !in a && b != [] && ' ' !in b
    ensures Initials(a + " " + b + " " + rest) == [UpperChar(a[0]), UpperChar(b[0])]
    ensures Initials(a + " " + b) == [UpperChar(a[0]), UpperChar(b[0])]
  {
    WordsAround(a + " " + b, rest);
    WordsAround(a, b);
    SingleWord(a);
    SingleWord(b);
    InitialsShape(a + " " + b + " " + rest);
    InitialsShape(a + " " + b);
  }

  datatype Partner = Partner(name: string, tag: string)

  const Partners := [
    Partner("State Health Dept.", "Govt. Partner"),
    Partner("SevaCare Foundation", "NGO"),
    Partner("Rural Health India", "NGO"),
    Partner("Community Clinics Network", "Alliance")
  ]

  /** The badge text of each partner, in list order. */
  function Badges(partners: seq<Partner>): (badges: seq<string>)
    ensures |badges| == |partners|
    ensures forall i :: 0 <= i < |partners| ==> badges[i] == Initials(partners[i].name)
  {
    if partners == [] then [] else [Initials(partners[0].name)] + Badges(partners[1..])
  }

  /** The badges of a four-partner list, written out. */
  lemma BadgesOfFour(ps: seq<Partner>)
    requires |ps| == 4
    ensures Badges(ps) == [Initials(ps[0].name), Initials(ps[1].name), Initials(ps[2].name), Initials(ps[3].name)]
  {
  }

  /** The names of the shipped partners. */
  lemma PartnerNames()
    ensures |Partners| == 4
    ensures Partners[0].name == "State Health Dept." && Partners[1].name == "SevaCare Foundation"
    ensures Partners[2].name == "Rural Health India" && Partners[3].name == "Community Clinics Network"
  {
  }

  lemma StateHealthInitials()
    ensures Initials("State Health Dept.") == "SH"
  {
    assert "State Health Dept." == "State" + " " + "Health" + " " + "Dept.";
    LaterWordsIgnored("State", "Health", "Dept.");
  }

  lemma SevaCareInitials()
    ensures Initials("SevaCare Foundation") == "SF"
  {
    assert "SevaCare Foundation" == "SevaCare" + " " + "Foundation";
    LaterWordsIgnored("SevaCare", "Foundation", []);
  }

  lemma RuralHealthInitials()
    ensures Initials("Rural Health India") == "RH"
  {
    assert "Rural Health India" == "Rural" + " " + "Health" + " " + "India";
    LaterWordsIgnored("Rural", "Health", "India");
  }

  lemma CommunityClinicsInitials()
    ensures Initials("Community Clinics Network") == "CC"
  {
    assert "Community Clinics Network" == "Community" + " " + "Clinics" + " " + "Network";
    LaterWordsIgnored("Community", "Clinics", "Network");
  }

  /** The partner list shows the badges SH, SF, RH and CC, in that order. */
  lemma PartnerBadges()
    ensures Badges(Partners) == ["SH", "SF", "RH", "CC"]
  {
    PartnerNames();
    BadgesOfFour(Partners);
    StateHealthInitials();
    SevaCareInitials();
    RuralHealthInitials();
    CommunityClinicsInitials();
  }
}
