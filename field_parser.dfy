/** The field parser: how the free-text answers of the dialogue become the
    skill list, the stored line lists and, at render time, the experience,
    education and project entries. */
module FieldParser {
  import opened Opt
  import opened PyStr

  datatype Experience = Experience(position: string, company: string, duration: string, description: string)
  datatype Education = Education(degree: string, institution: string, year: string)
  datatype Project = Project(name: string, description: string)

  /** `text.split('\n')`: how the education, experience and project answers
      are stored. */
  function SplitLines(text: string): seq<string> {
    Split(text, '\n', -1)
  }

  /** There is one line per line break plus one, no line holds a line
      break, and the lines join back to the text. */
  lemma LineCount(text: string)
    ensures |SplitLines(text)| == Count(text, '\n') + 1
    ensures forall i :: 0 <= i < |SplitLines(text)| ==> '\n' !in SplitLines(text)[i]
    ensures Join("\n", SplitLines(text)) == text
  {
    SplitCount(text, '\n', -1);
    SplitPieces(text, '\n', -1);
    SplitJoin(text, '\n', -1);
  }

  /** The skills answer: split on every comma, each piece stripped. */
  function ParseSkills(text: string): seq<string> {
    var pieces := Split(text, ',', -1);
    seq(|pieces|, i requires 0 <= i < |pieces| => Strip(pieces[i]))
  }

  /** No skill holds a comma or starts or ends with whitespace. */
  lemma SkillsClean(text: string)
    ensures forall i :: 0 <= i < |ParseSkills(text)| ==> ',' !in ParseSkills(text)[i]
    ensures forall i :: 0 <= i < |ParseSkills(text)| ==> Stripped(ParseSkills(text)[i])
  {
    var pieces := Split(text, ',', -1);
    SplitPieces(text, ',', -1);
    forall i | 0 <= i < |pieces|
      ensures ',' !in ParseSkills(text)[i] && Stripped(ParseSkills(text)[i])
    {
      StripKeeps(pieces[i], ',');
      StripStripped(pieces[i]);
    }
  }

  /** Empty pieces are kept, so there is exactly one skill per comma plus one. */
  lemma SkillCount(text: string)
    ensures |ParseSkills(text)| == Count(text, ',') + 1
  {
    SplitCount(text, ',', -1);
  }

  /** Comma-free pieces joined by commas parse to the stripped pieces, one
      skill per piece, in order. */
  lemma ParseSkillsOfPieces(ps: seq<string>)
    requires |ps| >= 1
    requires forall i :: 0 <= i < |ps| ==> ',' !in ps[i]
    ensures |ParseSkills(Join([','], ps))| == |ps|
    ensures forall i :: 0 <= i < |ps| ==> ParseSkills(Join([','], ps))[i] == Strip(ps[i])
  {
    SplitAllUnique(Join([','], ps), ',', ps);
  }

  /** An empty piece between two commas is kept as an empty skill
      (for instance "Python,,SQL" gives "Python", "" and "SQL"). */
  lemma EmptySkillKept(a: string, b: string)
    requires ',' !in a && ',' !in b
    ensures ParseSkills(a + ",," + b) == [Strip(a), "", Strip(b)]
  {
    var ps := [a, "", b];
    assert ps[1..] == ["", b];
    assert Join([','], ["", b]) == "," + b;
    assert Join([','], ps) == a + ",," + b;
    ParseSkillsOfPieces(ps);
  }

  /** The projects answer: "skip" in any letter case (not stripped) stores
      no project lines; any other answer stores its lines, of which there is
      always at least one. */
  function ProjectsAnswer(text: string): (lines: seq<string>)
    ensures lines == [] <==> Lower(text) == "skip"
    ensures lines != [] ==> lines == SplitLines(text)
  {
    if Lower(text) == "skip" then [] else SplitLines(text)
  }

  /** Case does not matter, surrounding blanks do. */
  lemma SkipIsExact()
    ensures ProjectsAnswer("SKIP") == [] && ProjectsAnswer("Skip") == []
    ensures ProjectsAnswer(" skip") != []
  {
    assert Lower(" skip") != "skip" by { assert Lower(" skip")[0] == ' '; }
  }

  /** An experience line: split on at most the first three commas; a line
      with fewer than three fields gives no entry; the description, which may
      hold commas, is empty when absent. */
  function ParseExperience(line: string): Option<Experience> {
    var parts := Split(line, ',', 3);
    if |parts| >= 3 then
      Some(Experience(Strip(parts[0]), Strip(parts[1]), Strip(parts[2]),
                      if |parts| > 3 then Strip(parts[3]) else ""))
    else
      None
  }

  /** Position and company, cut at the first two commas, hold none. */
  lemma ExperienceCommaFree(line: string)
    ensures var e := ParseExperience(line);
            e.Some? ==> ',' !in e.value.position && ',' !in e.value.company
  {
    var parts := Split(line, ',', 3);
    if |parts| >= 3 {
      SplitPieces(line, ',', 3);
      StripKeeps(parts[0], ',');
      StripKeeps(parts[1], ',');
    }
  }

  /** A line gives an experience entry exactly when it holds at least two commas. */
  lemma ExperienceNeedsThreeFields(line: string)
    ensures ParseExperience(line).Some? <==> Count(line, ',') >= 2
  {
    SplitCount(line, ',', 3);
  }

  /** "Position, Company, Duration, Description" parses field by field, and
      the description keeps its own commas. */
  lemma ExperienceFields(p: string, c: string, d: string, desc: string)
    requires ',' !in p && ',' !in c && ',' !in d
    ensures ParseExperience(p + "," + c + "," + d + "," + desc)
            == Some(Experience(Strip(p), Strip(c), Strip(d), Strip(desc)))
  {
    var ps := [p, c, d, desc];
    var line := p + "," + c + "," + d + "," + desc;
    assert Join([','], [d, desc]) == d + "," + desc;
    assert Join([','], [c, d, desc]) == c + "," + d + "," + desc by { assert [c, d, desc][1..] == [d, desc]; }
    assert Join([','], ps) == line by { assert ps[1..] == [c, d, desc]; }
    SplitUnique(line, ',', ps);
  }

  /** Without a fourth field the description is empty. */
  lemma ExperienceWithoutDescription(p: string, c: string, d: string)
    requires ',' !in p && ',' !in c && ',' !in d
    ensures ParseExperience(p + "," + c + "," + d) == Some(Experience(Strip(p), Strip(c), Strip(d), ""))
  {
    var ps := [p, c, d];
    var line := p + "," + c + "," + d;
    assert Join([','], [c, d]) == c + "," + d;
    assert Join([','], ps) == line by { assert ps[1..] == [c, d]; }
    SplitAllUnique(line, ',', ps);
    SplitCount(line, ',', -1);
    SplitBeyondCount(line, ',', 3);
  }

  /** An education line: split on every comma; a line with fewer than two
      fields gives no entry; the year is empty when absent and fields after
      the third are ignored. */
  function ParseEducation(line: string): Option<Education> {
    var parts := Split(line, ',', -1);
    if |parts| >= 2 then
      Some(Education(Strip(parts[0]), Strip(parts[1]), if |parts| > 2 then Strip(parts[2]) else ""))
    else
      None
  }

  /** Every field of an education entry is comma-free: the line is split at every comma. */
  lemma EducationCommaFree(line: string)
    ensures var e := ParseEducation(line);
            e.Some? ==> ',' !in e.value.degree && ',' !in e.value.institution && ',' !in e.value.year
  {
    var parts := Split(line, ',', -1);
    if |parts| >= 2 {
      SplitPieces(line, ',', -1);
      StripKeeps(parts[0], ',');
      StripKeeps(parts[1], ',');
      if |parts| > 2 {
        StripKeeps(parts[2], ',');
      }
    }
  }

  /** A line gives an education entry exactly when it holds a comma. */
  lemma EducationNeedsTwoFields(line: string)
    ensures ParseEducation(line).Some? <==> ',' in line
  {
    SplitCount(line, ',', -1);
    CountZero(line, ',');
  }

  /** Comma-free fields joined by commas parse to the first three, stripped. */
  lemma EducationFields(ps: seq<string>)
    requires |ps| >= 2
    requires forall i :: 0 <= i < |ps| ==> ',' !in ps[i]
    ensures ParseEducation(Join([','], ps))
            == Some(Education(Strip(ps[0]), Strip(ps[1]), if |ps| > 2 then Strip(ps[2]) else ""))
  {
    SplitAllUnique(Join([','], ps), ',', ps);
  }

  /** A project line: the name is the text before the first comma and the
      description the rest; every line, even an empty one, gives an entry. */
  function ParseProject(line: string): Project {
    var parts := Split(line, ',', 1);
    Project(Strip(parts[0]), if |parts| > 1 then Strip(parts[1]) else "")
  }

  /** A line that splits into a single piece holds no comma, and that piece is the line. */
  lemma ProjectSinglePiece(line: string)
    requires |Split(line, ',', 1)| == 1
    ensures ',' !in line && Split(line, ',', 1)[0] == line
  {
    SplitJoin(line, ',', 1);
    SplitCount(line, ',', 1);
    CountZero(line, ',');
  }

  /** The name never holds a comma. */
  lemma ProjectNameHasNoComma(line: string)
    ensures ',' !in ParseProject(line).name
  {
    var parts := Split(line, ',', 1);
    if |parts| == 1 {
      ProjectSinglePiece(line);
      StripKeeps(line, ',');
      assert ParseProject(line).name == Strip(line);
    } else {
      SplitPieces(line, ',', 1);
      StripKeeps(parts[0], ',');
    }
  }

  /** A line without a comma is all name and no description. */
  lemma ProjectWithoutComma(line: string)
    requires ',' !in line
    ensures ParseProject(line) == Project(Strip(line), "")
  {
    SplitCount(line, ',', 1);
    CountZero(line, ',');
    ProjectSinglePiece(line);
  }

  /** "Name, Description" parses field by field; the description keeps its commas. */
  lemma ProjectFields(n: string, d: string)
    requires ',' !in n
    ensures ParseProject(n + "," + d) == Project(Strip(n), Strip(d))
  {
    var ps := [n, d];
    assert Join([','], ps) == n + "," + d;
    SplitUnique(n + "," + d, ',', ps);
  }

  /** Every field of an experience entry is stripped of surrounding whitespace. */
  lemma ExperienceStripped(line: string)
    ensures var e := ParseExperience(line);
            e.Some? ==> Stripped(e.value.position) && Stripped(e.value.company)
                        && Stripped(e.value.duration) && Stripped(e.value.description)
  {
    var parts := Split(line, ',', 3);
    if |parts| >= 3 {
      StripStripped(parts[0]);
      StripStripped(parts[1]);
      StripStripped(parts[2]);
      if |parts| > 3 {
        StripStripped(parts[3]);
      }
    }
  }

  /** Every field of an education entry is stripped of surrounding whitespace. */
  lemma EducationStripped(line: string)
    ensures var e := ParseEducation(line);
            e.Some? ==> Stripped(e.value.degree) && Stripped(e.value.institution) && Stripped(e.value.year)
  {
    var parts := Split(line, ',', -1);
    if |parts| >= 2 {
      var e := ParseEducation(line).value;
      StripStripped(parts[0]);
      StripStripped(parts[1]);
      assert e.degree == Strip(parts[0]) && e.institution == Strip(parts[1]);
      if |parts| > 2 {
        StripStripped(parts[2]);
        assert e.year == Strip(parts[2]);
      } else {
        assert e.year == "";
      }
    }
  }

  /** Both fields of a project entry are stripped of surrounding whitespace. */
  lemma ProjectStripped(line: string)
    ensures Stripped(ParseProject(line).name) && Stripped(ParseProject(line).description)
  {
    var parts := Split(line, ',', 1);
    StripStripped(parts[0]);
    if |parts| > 1 {
      StripStripped(parts[1]);
    }
  }

  /** The values of the options that are present, in order: the loops'
      `if len(parts) >= ...` filter. */
  function Present<T>(opts: seq<Option<T>>): (xs: seq<T>)
    ensures |xs| <= |opts|
    ensures forall x :: x in xs ==> exists i :: 0 <= i < |opts| && opts[i] == Some(x)
    ensures (forall i :: 0 <= i < |opts| ==> opts[i].Some?) ==> |xs| == |opts|
  {
    if opts == [] then []
    else
      var init := opts[..|opts| - 1];
      assert forall i :: 0 <= i < |init| ==> init[i] == opts[i];
      Present(init) + (match opts[|opts| - 1] case Some(x) => [x] case None => [])
  }

  function ParsedExperiences(lines: seq<string>): seq<Option<Experience>> {
    seq(|lines|, i requires 0 <= i < |lines| => ParseExperience(lines[i]))
  }

  function ParsedEducations(lines: seq<string>): seq<Option<Education>> {
    seq(|lines|, i requires 0 <= i < |lines| => ParseEducation(lines[i]))
  }

  /** The experience entries of the stored lines, in line order, skipping
      lines that give none. */
  function Experiences(lines: seq<string>): (es: seq<Experience>)
    ensures |es| <= |lines|
    ensures forall e :: e in es ==> exists i :: 0 <= i < |lines| && ParseExperience(lines[i]) == Some(e)
    ensures (forall i :: 0 <= i < |lines| ==> ParseExperience(lines[i]).Some?) ==> |es| == |lines|
  {
    Present(ParsedExperiences(lines))
  }

  /** The education entries of the stored lines, in line order, skipping
      lines that give none. */
  function Educations(lines: seq<string>): (es: seq<Education>)
    ensures |es| <= |lines|
    ensures forall e :: e in es ==> exists i :: 0 <= i < |lines| && ParseEducation(lines[i]) == Some(e)
    ensures (forall i :: 0 <= i < |lines| ==> ParseEducation(lines[i]).Some?) ==> |es| == |lines|
  {
    Present(ParsedEducations(lines))
  }

  /** Appending a line appends its experience entry when it parses and
      nothing otherwise: entries come in line order, one per parsable line. */
  lemma ExperiencesStep(lines: seq<string>, line: string)
    ensures Experiences(lines + [line]) ==
      Experiences(lines) + (if ParseExperience(line).Some? then [ParseExperience(line).value] else [])
  {
    var opts := ParsedExperiences(lines + [line]);
    assert opts[..|lines|] == ParsedExperiences(lines);
    assert opts[|lines|] == ParseExperience(line);
  }

  /** Appending a line appends its education entry when it parses and
      nothing otherwise: entries come in line order, one per parsable line. */
  lemma EducationsStep(lines: seq<string>, line: string)
    ensures Educations(lines + [line]) ==
      Educations(lines) + (if ParseEducation(line).Some? then [ParseEducation(line).value] else [])
  {
    var opts := ParsedEducations(lines + [line]);
    assert opts[..|lines|] == ParsedEducations(lines);
    assert opts[|lines|] == ParseEducation(line);
  }

  /** No lines, no entries. */
  lemma NoLinesNoEntries()
    ensures Experiences([]) == [] && Educations([]) == []
  {
  }

  /** The project entries of the stored lines: one per line, none dropped. */
  function Projects(lines: seq<string>): (ps: seq<Project>)
    ensures |ps| == |lines|
    ensures forall i :: 0 <= i < |lines| ==> ps[i] == ParseProject(lines[i])
  {
    if lines == [] then []
    else
      var init := lines[..|lines| - 1];
      assert forall i :: 0 <= i < |init| ==> init[i] == lines[i];
      Projects(init) + [ParseProject(lines[|lines| - 1])]
  }

  /** A well-formed education line is kept and a line without a comma is
      dropped: "BS Computer Science, MIT, 2020\nBad Line" gives one entry. */
  lemma EducationExample(degree: string, institution: string, year: string, bad: string)
    requires ',' !in degree && ',' !in institution && ',' !in year && ',' !in bad
    requires '\n' !in degree && '\n' !in institution && '\n' !in year && '\n' !in bad
    ensures Educations(SplitLines(degree + "," + institution + "," + year + "\n" + bad))
            == [Education(Strip(degree), Strip(institution), Strip(year))]
  {
    var first := degree + "," + institution + "," + year;
    var lines := [first, bad];
    assert '\n' !in first;
    assert Join(['\n'], lines) == first + "\n" + bad;
    SplitAllUnique(first + "\n" + bad, '\n', lines);
    var fields := [degree, institution, year];
    assert fields[1..] == [institution, year];
    assert Join([','], [institution, year]) == institution + "," + year;
    assert Join([','], fields) == first;
    EducationFields(fields);
    EducationNeedsTwoFields(bad);
    var e := Education(Strip(degree), Strip(institution), Strip(year));
    var opts: seq<Option<Education>> := [Some(e), None];
    assert ParsedEducations(lines) == opts;
    assert opts[..1] == [Some(e)] && opts[..1][..0] == [];
    assert Present(opts[..1]) == [e];
  }
}
