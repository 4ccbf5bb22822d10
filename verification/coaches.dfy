/** The coach directory: the fixed list of nine coaches, the search and
    specialty filter, and the initials shown when a coach has no photo.
    Ratings are floating-point numbers and are not kept. */
module Coaches {
  import opened Strings
  import opened Sequences
  import opened JsonValue

  datatype Coach = Coach(
    id: nat,
    name: string,
    specialty: string,
    bio: string,
    imageUrl: string,
    expertise: seq<string>,
    totalSessions: nat)

  const PracticeManagement := "Practice Management"
  const FrontOffice := "Front Office Excellence"

  /** The value of the "All Specialties" item of the specialty menu. */
  const AllItem := "all"

  const Sarah := Coach(1, "Dr. Sarah Johnson", PracticeManagement,
    "15+ years experience helping dental practices optimize their operations and growth strategies.",
    "/coaches/sarah.jpg", ["Team Building", "Financial Planning", "Patient Experience"], 234)
  const Michael := Coach(2, "Dr. Michael Chen", FrontOffice,
    "Expert in modernizing front office operations and implementing efficient systems.",
    "/coaches/michael.jpg", ["Patient Communication", "Scheduling Optimization", "Technology Integration"], 189)
  const Alicia := Coach(3, "Dr. Alicia Gomez", PracticeManagement,
    "Former private practice owner who now specializes in guiding new dentists through startup challenges.",
    "/coaches/alicia.jpg", ["Branding", "Hiring & Onboarding", "Software Selection"], 150)
  const Ben := Coach(4, "Dr. Ben Thompson", FrontOffice,
    "Known for transforming chaotic front offices into well-oiled machines, improving patient satisfaction.",
    "/coaches/ben.jpg", ["Phone Etiquette", "Appointment Flow", "Insurance Verification"], 212)
  const Priya := Coach(5, "Dr. Priya Patel", PracticeManagement,
    "Helps clinics scale by analyzing key KPIs and implementing effective systems for sustainable growth.",
    "/coaches/priya.jpg", ["Financial Analysis", "Growth Strategy", "Patient Retention"], 310)
  const Matthew := Coach(6, "Dr. Matthew Lee", FrontOffice,
    "Focuses on integrating technology into the front office to streamline patient scheduling and billing.",
    "/coaches/matthew.jpg", ["Tech Integration", "EHR Optimization", "Online Booking"], 98)
  const Emily := Coach(7, "Dr. Emily Rodgers", PracticeManagement,
    "Specializes in team leadership and building a positive culture that retains top talent.",
    "/coaches/emily.jpg", ["Leadership", "Culture Building", "Staff Training"], 275)
  const Carlos := Coach(8, "Dr. Carlos Navarro", PracticeManagement,
    "Expert in creating patient-centric workflows that boost satisfaction and drive word-of-mouth referrals.",
    "/coaches/carlos.jpg", ["Patient Experience", "Workflow Efficiency", "Referral Strategies"], 187)
  const Olivia := Coach(9, "Dr. Olivia Brooks", FrontOffice,
    "Passionate about customer service best practices and front-desk communication protocols.",
    "/coaches/olivia.jpg", ["Customer Service", "Front-Desk Protocol", "Conflict Resolution"], 120)

  /** The nine coaches, in the order the page lists them. */
  const Directory: seq<Coach> := [Sarah, Michael, Alicia, Ben, Priya, Matthew, Emily, Carlos, Olivia]

  // ---------------------------------------------------------------------------
  // the filter

  /** The name or the specialty contains the search term, ignoring case:
      the lowered term occurs at some index of the lowered name or of the
      lowered specialty. An empty search matches every coach. */
  function MatchesSearch(c: Coach, searchTerm: string): (b: bool)
    ensures b <==> (exists i :: OccursAt(Lower(c.name), Lower(searchTerm), i))
                   || (exists i :: OccursAt(Lower(c.specialty), Lower(searchTerm), i))
    ensures searchTerm == "" ==> b
  {
    ContainsIff(Lower(c.name), Lower(searchTerm));
    ContainsIff(Lower(c.specialty), Lower(searchTerm));
    Contains(Lower(c.name), Lower(searchTerm)) || Contains(Lower(c.specialty), Lower(searchTerm))
  }

  /** No specialty is selected (`!selectedSpecialty`: the empty string is
      falsy), or the coach's specialty is exactly the selected one. */
  function MatchesSpecialty(c: Coach, selectedSpecialty: string): (b: bool)
    ensures b <==> !Truthy(Defined(JStr(selectedSpecialty))) || c.specialty == selectedSpecialty
    ensures selectedSpecialty == "" ==> b
  {
    selectedSpecialty == "" || c.specialty == selectedSpecialty
  }

  predicate Kept(c: Coach, searchTerm: string, selectedSpecialty: string)
  {
    MatchesSearch(c, searchTerm) && MatchesSpecialty(c, selectedSpecialty)
  }

  /** `filteredCoaches`: the coaches that satisfy both tests, in list order. */
  function Filter(coaches: seq<Coach>, searchTerm: string, selectedSpecialty: string): (r: seq<Coach>)
    ensures |r| <= |coaches|
  {
    if |coaches| == 0 then []
    else
      var rest := Filter(coaches[1..], searchTerm, selectedSpecialty);
      if Kept(coaches[0], searchTerm, selectedSpecialty) then [coaches[0]] + rest else rest
  }

  /** A coach is in the result exactly when it is in the list and passes
      both tests. */
  lemma {:induction false} FilterMembers(coaches: seq<Coach>, searchTerm: string, selectedSpecialty: string)
    ensures forall c :: c in Filter(coaches, searchTerm, selectedSpecialty) <==>
      c in coaches && Kept(c, searchTerm, selectedSpecialty)
  {
    if |coaches| > 0 {
      FilterMembers(coaches[1..], searchTerm, selectedSpecialty);
      assert forall c :: c in coaches <==> c == coaches[0] || c in coaches[1..];
    }
  }

  /** The result keeps the original order: it is a subsequence of the list. */
  lemma {:induction false} FilterKeepsOrder(coaches: seq<Coach>, searchTerm: string, selectedSpecialty: string)
    ensures IsSubsequence(Filter(coaches, searchTerm, selectedSpecialty), coaches)
  {
    if |coaches| > 0 {
      FilterKeepsOrder(coaches[1..], searchTerm, selectedSpecialty);
      var r := Filter(coaches, searchTerm, selectedSpecialty);
      if Kept(coaches[0], searchTerm, selectedSpecialty) {
        assert r[1..] == Filter(coaches[1..], searchTerm, selectedSpecialty);
      }
    }
  }

  /** Every kept coach appears as often as it is listed, and no other coach
      appears at all. */
  lemma {:induction false} FilterCounts(coaches: seq<Coach>, searchTerm: string, selectedSpecialty: string)
    ensures forall c :: multiset(Filter(coaches, searchTerm, selectedSpecialty))[c] ==
                        (if Kept(c, searchTerm, selectedSpecialty) then multiset(coaches)[c] else 0)
  {
    if |coaches| > 0 {
      FilterCounts(coaches[1..], searchTerm, selectedSpecialty);
      assert coaches == [coaches[0]] + coaches[1..];
      assert multiset(coaches) == multiset([coaches[0]]) + multiset(coaches[1..]);
      var rest := Filter(coaches[1..], searchTerm, selectedSpecialty);
      if Kept(coaches[0], searchTerm, selectedSpecialty) {
        assert multiset([coaches[0]] + rest) == multiset([coaches[0]]) + multiset(rest);
      }
    }
  }

  /** The search depends on the term only through its lower-case form. */
  lemma {:induction false} FilterSameLower(coaches: seq<Coach>, t: string, t': string, selectedSpecialty: string)
    requires Lower(t) == Lower(t')
    ensures Filter(coaches, t, selectedSpecialty) == Filter(coaches, t', selectedSpecialty)
  {
    if |coaches| > 0 {
      FilterSameLower(coaches[1..], t, t', selectedSpecialty);
    }
  }

  /** Search ignores letter case: upper-casing or lower-casing the term does
      not change the result. */
  lemma SearchIgnoresCase(coaches: seq<Coach>, searchTerm: string, selectedSpecialty: string)
    ensures Filter(coaches, Upper(searchTerm), selectedSpecialty) == Filter(coaches, searchTerm, selectedSpecialty)
    ensures Filter(coaches, Lower(searchTerm), selectedSpecialty) == Filter(coaches, searchTerm, selectedSpecialty)
  {
    LowerForgetsCase(searchTerm);
    FilterSameLower(coaches, Upper(searchTerm), searchTerm, selectedSpecialty);
    FilterSameLower(coaches, Lower(searchTerm), searchTerm, selectedSpecialty);
  }

  /** With an empty search and no specialty every coach is kept. */
  lemma {:induction false} NoFilterKeepsAll(coaches: seq<Coach>)
    ensures Filter(coaches, "", "") == coaches
  {
    if |coaches| > 0 {
      NoFilterKeepsAll(coaches[1..]);
      assert Lower("") == "";
      assert [coaches[0]] + coaches[1..] == coaches;
    }
  }

  /** On first load (both states empty) the page lists all nine coaches. */
  lemma InitialListIsAll()
    ensures Filter(Directory, "", "") == Directory && |Directory| == 9
  {
    NoFilterKeepsAll(Directory);
  }

  /** The specialty test is exact: a specialty no coach has leaves nothing. */
  lemma {:induction false} UnknownSpecialtyKeepsNone(coaches: seq<Coach>, searchTerm: string, selectedSpecialty: string)
    requires selectedSpecialty != ""
    requires forall i :: 0 <= i < |coaches| ==> coaches[i].specialty != selectedSpecialty
    ensures Filter(coaches, searchTerm, selectedSpecialty) == []
  {
    if |coaches| > 0 {
      UnknownSpecialtyKeepsNone(coaches[1..], searchTerm, selectedSpecialty);
    }
  }

  /** As written, choosing "All Specialties" hides every coach: the item's
      value "all" is not empty, and no coach's specialty is "all". */
  lemma AllItemKeepsNone(searchTerm: string)
    ensures Filter(Directory, searchTerm, AllItem) == []
  {
    UnknownSpecialtyKeepsNone(Directory, searchTerm, AllItem);
  }

  /** The filter as the "All Specialties" item evidently intends: that item
      selects no specialty, like the initial empty selection. */
  function FilterIntended(coaches: seq<Coach>, searchTerm: string, selectedSpecialty: string): (r: seq<Coach>)
    ensures selectedSpecialty != AllItem ==> r == Filter(coaches, searchTerm, selectedSpecialty)
  {
    Filter(coaches, searchTerm, if selectedSpecialty == AllItem then "" else selectedSpecialty)
  }

  /** With the intended filter, "All Specialties" and an empty search list
      every coach, and with any search it keeps what the empty selection
      keeps. */
  lemma AllItemKeepsAllIntended(searchTerm: string)
    ensures FilterIntended(Directory, searchTerm, AllItem) == Filter(Directory, searchTerm, "")
    ensures FilterIntended(Directory, "", AllItem) == Directory
  {
    NoFilterKeepsAll(Directory);
  }

  /** The ids of a list of coaches. */
  function Ids(coaches: seq<Coach>): (r: seq<nat>)
    ensures |r| == |coaches|
    ensures forall i :: 0 <= i < |coaches| ==> r[i] == coaches[i].id
  {
    seq(|coaches|, i requires 0 <= i < |coaches| => coaches[i].id)
  }

  /** The coaches whose specialty passes, in list order. */
  function WithSpecialty(coaches: seq<Coach>, selectedSpecialty: string): seq<Coach>
  {
    if |coaches| == 0 then []
    else
      var rest := WithSpecialty(coaches[1..], selectedSpecialty);
      if MatchesSpecialty(coaches[0], selectedSpecialty) then [coaches[0]] + rest else rest
  }

  /** Every name contains the empty search, so with an empty search only
      the specialty test decides. */
  lemma {:induction false} EmptySearchIsSpecialtyOnly(coaches: seq<Coach>, selectedSpecialty: string)
    ensures Filter(coaches, "", selectedSpecialty) == WithSpecialty(coaches, selectedSpecialty)
  {
    if |coaches| > 0 {
      EmptySearchIsSpecialtyOnly(coaches[1..], selectedSpecialty);
      assert Lower("") == "";
    }
  }

  /** Filtering by "Front Office Excellence" with an empty search keeps
      coaches 2, 4, 6 and 9. */
  lemma FrontOfficeCoaches()
    ensures Ids(Filter(Directory, "", FrontOffice)) == [2, 4, 6, 9]
  {
    EmptySearchIsSpecialtyOnly(Directory, FrontOffice);
    FrontOfficeSelection();
  }

  /** The front-office coaches of the directory, in directory order. */
  lemma FrontOfficeSelection()
    ensures WithSpecialty(Directory, FrontOffice) == [Michael, Ben, Matthew, Olivia]
  {
    FrontOfficeTail();
    assert WithSpecialty([Ben, Priya, Matthew, Emily, Carlos, Olivia], FrontOffice) == [Ben, Matthew, Olivia];
    assert WithSpecialty([Alicia, Ben, Priya, Matthew, Emily, Carlos, Olivia], FrontOffice) == [Ben, Matthew, Olivia];
    assert WithSpecialty([Michael, Alicia, Ben, Priya, Matthew, Emily, Carlos, Olivia], FrontOffice) == [Michael, Ben, Matthew, Olivia];
    assert WithSpecialty([Sarah, Michael, Alicia, Ben, Priya, Matthew, Emily, Carlos, Olivia], FrontOffice) == [Michael, Ben, Matthew, Olivia];
  }

  /** The last five coaches of the directory hold two front-office coaches. */
  lemma FrontOfficeTail()
    ensures WithSpecialty([Priya, Matthew, Emily, Carlos, Olivia], FrontOffice) == [Matthew, Olivia]
  {
    assert PracticeManagement != FrontOffice by { assert PracticeManagement[0] != FrontOffice[0]; }
    assert WithSpecialty([Olivia], FrontOffice) == [Olivia];
    assert WithSpecialty([Carlos, Olivia], FrontOffice) == [Olivia];
    assert WithSpecialty([Emily, Carlos, Olivia], FrontOffice) == [Olivia];
    assert WithSpecialty([Matthew, Emily, Carlos, Olivia], FrontOffice) == [Matthew, Olivia];
  }

  // ---------------------------------------------------------------------------
  // initials

  /** `n[0]` for one word; indexing an empty word gives `undefined`, which
      `join` renders as nothing. */
  function FirstLetter(word: string): (r: string)
    ensures |r| <= 1
  {
    if word == "" then "" else [word[0]]
  }

  /** `words.map((n) => n[0])`: one initial per word, in order. */
  function FirstLetters(words: seq<string>): (r: seq<string>)
    ensures |r| == |words|
    ensures forall i :: 0 <= i < |words| ==> r[i] == FirstLetter(words[i])
  {
    seq(|words|, i requires 0 <= i < |words| => FirstLetter(words[i]))
  }

  /** `name.split(" ").map((n) => n[0]).join("")`: at most one initial per
      space-separated word. */
  function Initials(name: string): (r: string)
    ensures |r| <= |Split(name, ' ')|
  {
    var letters := FirstLetters(Split(name, ' '));
    JoinLength(letters, "");
    TotalLengthAtMostCount(letters);
    Join(letters, "")
  }

  lemma {:induction false} TotalLengthAtMostCount(parts: seq<string>)
    requires forall i :: 0 <= i < |parts| ==> |parts[i]| <= 1
    ensures TotalLength(parts) <= |parts|
  {
    if |parts| > 0 {
      TotalLengthAtMostCount(parts[1..]);
    }
  }

  /** A name made of space-free words joined by single spaces shows one
      initial per word, in order: its first letter, or nothing for an empty
      word. When no word is empty, the initials are the words' first letters. */
  lemma InitialsOfWords(words: seq<string>)
    requires |words| >= 1
    requires forall i :: 0 <= i < |words| ==> ' ' !in words[i]
    ensures Initials(Join(words, " ")) == Join(FirstLetters(words), "")
    ensures (forall i :: 0 <= i < |words| ==> words[i] != "") ==>
      Initials(Join(words, " ")) == seq(|words|, i requires 0 <= i < |words| => words[i][0])
  {
    var name := Join(words, " ");
    assert " " == [' '];
    JoinSplit(words, ' ');
    InitialsOfSplit(name, words);
    if forall i :: 0 <= i < |words| ==> words[i] != "" {
      FirstLettersOfWords(words);
    }
  }

  /** The initials of a name are the first letters of its pieces. */
  lemma InitialsOfSplit(name: string, words: seq<string>)
    requires Split(name, ' ') == words
    ensures Initials(name) == Join(FirstLetters(words), "")
  {
  }

  /** Non-empty words give their first characters as initials. */
  lemma FirstLettersOfWords(words: seq<string>)
    requires forall i :: 0 <= i < |words| ==> words[i] != ""
    ensures Join(FirstLetters(words), "") == seq(|words|, i requires 0 <= i < |words| => words[i][0])
  {
    var letters := FirstLetters(words);
    JoinSingletons(letters);
    assert forall i :: 0 <= i < |words| ==> letters[i][0] == words[i][0];
  }

  /** A three-word name shows the first letter of each word. */
  lemma ThreeWordInitials(w1: string, w2: string, w3: string)
    requires w1 != "" && w2 != "" && w3 != ""
    requires ' ' !in w1 && ' ' !in w2 && ' ' !in w3
    ensures Initials(w1 + " " + w2 + " " + w3) == [w1[0], w2[0], w3[0]]
  {
    var words := [w1, w2, w3];
    assert words[1..] == [w2, w3] && words[1..][1..] == [w3];
    JoinCons(words, " ");
    JoinCons([w2, w3], " ");
    assert Join(words, " ") == w1 + " " + (w2 + " " + w3);
    assert w1 + " " + (w2 + " " + w3) == w1 + " " + w2 + " " + w3;
    InitialsOfWords(words);
  }

  /** "Dr. Sarah Johnson" shows as "DSJ". */
  lemma SarahJohnsonInitials()
    ensures Initials("Dr. Sarah Johnson") == "DSJ"
  {
    assert "Dr. Sarah Johnson" == "Dr." + " " + "Sarah" + " " + "Johnson";
    ThreeWordInitials("Dr.", "Sarah", "Johnson");
  }
}
