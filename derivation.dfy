/** The derivation engine: the summary sentence, the padded skill list and
    the job recommendations, all computed from the collected answers. */
module Derivation {
  import opened PyStr

  /** No element occurs twice. */
  predicate Distinct(xs: seq<string>) {
    forall i, j :: 0 <= i < j < |xs| ==> xs[i] != xs[j]
  }

  // ---------------------------------------------------------------- summary

  const SummaryLead := " is a dedicated professional with expertise in "
  const SummaryTail := ". Seeking new opportunities to apply these skills in a challenging environment."

  /** The summary sentence: the name, the first three skills (or fewer, if
      there are fewer) joined by ", ", and a fixed closing sentence. */
  function Summary(name: string, skills: seq<string>): (s: string)
    ensures StartsWith(s, name + SummaryLead)
    ensures |SummaryTail| <= |s| && s[|s| - |SummaryTail|..] == SummaryTail
  {
    var s := name + SummaryLead + Join(", ", skills[..Min(3, |skills|)]) + SummaryTail;
    assert s[..|name + SummaryLead|] == name + SummaryLead;
    s
  }

  /** A string found in the middle part is found in the whole. */
  lemma ContainsWithin(a: string, x: string, b: string, sub: string)
    requires Contains(x, sub)
    ensures Contains(a + x + b, sub)
  {
    ContainsIff(x, sub);
    var k :| OccursAt(x, sub, k);
    var w := a + x + b;
    assert w[|a| + k..|a| + k + |sub|] == x[k..k + |sub|];
    assert OccursAt(w, sub, |a| + k);
    ContainsIff(w, sub);
  }

  /** Each of the first three skills appears in the summary. */
  lemma SummaryMentions(name: string, skills: seq<string>, i: int)
    requires 0 <= i < Min(3, |skills|)
    ensures Contains(Summary(name, skills), skills[i])
  {
    var first := skills[..Min(3, |skills|)];
    JoinContains(", ", first, i);
    ContainsWithin(name + SummaryLead, Join(", ", first), SummaryTail, skills[i]);
  }

  // ------------------------------------------------------ skill enhancement

  /** The generic skills used to pad a short skill list, in the order tried. */
  const Fallback: seq<string> := ["Problem Solving", "Communication", "Teamwork", "Time Management",
                                  "Leadership", "Critical Thinking", "Adaptability", "Project Management"]

  /** Padding stops at this many skills. */
  const Cap := 8

  lemma FallbackDistinct()
    ensures Distinct(Fallback)
  {
    forall i, j | 0 <= i < j < |Fallback| ensures Fallback[i] != Fallback[j] {
      assert Fallback[i][0] != Fallback[j][0] || |Fallback[i]| != |Fallback[j]|;
    }
  }

  /** The entries of `cands`, in order, that are not in `skills`. */
  function Absent(skills: seq<string>, cands: seq<string>): (r: seq<string>)
    ensures |r| <= |cands|
    ensures forall x :: x in r <==> x in cands && x !in skills
  {
    if cands == [] then []
    else
      var init := cands[..|cands| - 1];
      var last := cands[|cands| - 1];
      assert cands == init + [last];
      Absent(skills, init) + (if last in skills then [] else [last])
  }

  /** The first `n` elements, or all of them when there are fewer. */
  function Take(xs: seq<string>, n: nat): (r: seq<string>)
    ensures |r| == Min(n, |xs|)
    ensures r == xs[..|r|]
    ensures |xs| <= n ==> r == xs
  {
    xs[..Min(n, |xs|)]
  }

  /** The padded skill list: the skills as given, then fallback skills they
      do not already hold, in fallback order, up to eight in all.  A list of
      eight or more is returned as it is. */
  function Enhanced(skills: seq<string>): seq<string> {
    if |skills| >= Cap then skills else skills + Take(Absent(skills, Fallback), Cap - |skills|)
  }

  /** Removing an element keeps a list distinct. */
  lemma {:induction false} AbsentDistinct(skills: seq<string>, cands: seq<string>)
    requires Distinct(cands)
    ensures Distinct(Absent(skills, cands))
  {
    if cands != [] {
      var init := cands[..|cands| - 1];
      var last := cands[|cands| - 1];
      assert Distinct(init);
      AbsentDistinct(skills, init);
    }
  }

  /** What padding does: the skills stay in front, unchanged; only fallback
      skills absent from them are added, each once; the list reaches eight
      unless it was longer already or the fallback list ran out. */
  lemma EnhancedShape(skills: seq<string>)
    ensures |Enhanced(skills)| >= |skills| && Enhanced(skills)[..|skills|] == skills
    ensures |Enhanced(skills)| == if |skills| >= Cap then |skills|
                                  else Min(Cap, |skills| + |Absent(skills, Fallback)|)
    ensures forall i :: |skills| <= i < |Enhanced(skills)| ==>
              Enhanced(skills)[i] in Fallback && Enhanced(skills)[i] !in skills
    ensures Distinct(Enhanced(skills)[|skills|..])
  {
    var e := Enhanced(skills);
    if |skills| < Cap {
      var added := Take(Absent(skills, Fallback), Cap - |skills|);
      FallbackDistinct();
      AbsentDistinct(skills, Fallback);
      assert e[|skills|..] == added;
      forall i | |skills| <= i < |e| ensures e[i] in Fallback && e[i] !in skills {
        assert e[i] == added[i - |skills|] == Absent(skills, Fallback)[i - |skills|];
      }
    } else {
      assert e[|skills|..] == [];
    }
  }

  /** Nothing is absent when every candidate is present. */
  lemma AbsentNone(skills: seq<string>, cands: seq<string>)
    requires forall x :: x in cands ==> x in skills
    ensures Absent(skills, cands) == []
  {
  }

  /** Padding a padded list changes nothing. */
  lemma EnhancedIdempotent(skills: seq<string>)
    ensures Enhanced(Enhanced(skills)) == Enhanced(skills)
  {
    var e := Enhanced(skills);
    if |skills| < Cap && |e| < Cap {
      var abs := Absent(skills, Fallback);
      assert |abs| < Cap - |skills|;
      assert e == skills + abs;
      forall x | x in Fallback ensures x in e {
        if x !in skills {
          assert x in abs;
        }
      }
      AbsentNone(e, Fallback);
      assert e + Take([], Cap - |e|) == e;
    }
  }

  /** Extending the candidates by one extends what is absent by that one,
      when the skills do not hold it. */
  lemma AbsentStep(skills: seq<string>, cands: seq<string>, i: nat)
    requires i < |cands|
    ensures Absent(skills, cands[..i + 1])
            == Absent(skills, cands[..i]) + (if cands[i] in skills then [] else [cands[i]])
  {
    assert cands[..i + 1][..i] == cands[..i];
  }

  /** One turn of the padding loop keeps it on track: the candidate is
      appended exactly when the skills lack it and there is room. */
  lemma {:induction false} PadStep(skills: seq<string>, cands: seq<string>, i: nat, cur: seq<string>, cap: nat)
    requires Distinct(cands) && i < |cands| && |skills| < cap
    requires cur == skills + Take(Absent(skills, cands[..i]), cap - |skills|)
    ensures (if cands[i] !in cur && |cur| < cap then cur + [cands[i]] else cur)
            == skills + Take(Absent(skills, cands[..i + 1]), cap - |skills|)
  {
    var x := cands[i];
    var before := Absent(skills, cands[..i]);
    var k := cap - |skills|;
    AbsentStep(skills, cands, i);
    assert x !in cands[..i];
    assert x !in before;
    if |before| < k {
      assert Take(before, k) == before;
      assert x in cur <==> x in skills;
      if x !in skills {
        assert Take(before + [x], k) == before + [x];
      }
    } else {
      assert |cur| == cap;
      assert (before + [x])[..k] == before[..k];
    }
  }

  /** `enhance_skills`: copy the list, then try each fallback skill in turn,
      appending it when it is not yet present and the list is still short. */
  method EnhanceSkills(skills: seq<string>) returns (enhanced: seq<string>)
    ensures enhanced == Enhanced(skills)
  {
    enhanced := skills;
    if |enhanced| < Cap {
      FallbackDistinct();
      for i := 0 to |Fallback|
        invariant enhanced == skills + Take(Absent(skills, Fallback[..i]), Cap - |skills|)
      {
        PadStep(skills, Fallback, i, enhanced, Cap);
        var skill := Fallback[i];
        if skill !in enhanced && |enhanced| < Cap {
          enhanced := enhanced + [skill];
        }
      }
      assert Fallback[..|Fallback|] == Fallback;
    }
  }

  // ---------------------------------------------------- job recommendations

  /** A row of the recommendation table: a lower-case keyword and its titles. */
  datatype Row = Row(key: string, titles: seq<string>)

  const SkillToJobs: seq<Row> := [
    Row("python", ["Python Developer", "Software Engineer", "Data Scientist", "Backend Developer"]),
    Row("javascript", ["Frontend Developer", "Web Developer", "Full Stack Developer", "UI Engineer"]),
    Row("java", ["Java Developer", "Software Engineer", "Android Developer", "Backend Developer"]),
    Row("sql", ["Database Administrator", "Data Analyst", "Backend Developer", "SQL Developer"]),
    Row("data analysis", ["Data Analyst", "Business Analyst", "Data Scientist", "Research Analyst"]),
    Row("machine learning", ["Machine Learning Engineer", "Data Scientist", "AI Researcher", "ML Specialist"]),
    Row("project management", ["Project Manager", "Product Manager", "Scrum Master", "Program Manager"]),
    Row("marketing", ["Marketing Specialist", "Digital Marketer", "Content Strategist", "Marketing Manager"]),
    Row("design", ["UI/UX Designer", "Graphic Designer", "Product Designer", "Web Designer"])
  ]

  /** What is recommended when no keyword matches. */
  const DefaultJobs: seq<string> := ["Project Manager", "Software Developer", "Business Analyst",
                                     "Data Specialist", "Marketing Coordinator"]

  /** The titles of those `rows` whose keyword occurs in `lower`. */
  function TitlesFor(lower: string, rows: seq<Row>): set<string> {
    if rows == [] then {}
    else
      var last := rows[|rows| - 1];
      TitlesFor(lower, rows[..|rows| - 1])
      + (if Contains(lower, last.key) then set t | t in last.titles else {})
  }

  /** The titles, in `rows`, of every keyword that occurs in some lower-cased skill. */
  function MatchedIn(rows: seq<Row>, skills: seq<string>): set<string> {
    if skills == [] then {}
    else MatchedIn(rows, skills[..|skills| - 1]) + TitlesFor(Lower(skills[|skills| - 1]), rows)
  }

  /** The titles the bot's own table recommends for `skills`. */
  function Matched(skills: seq<string>): set<string> {
    MatchedIn(SkillToJobs, skills)
  }

  /** The recommendation rule stated directly: title `t` is recommended when
      some keyword of `rows` occurs in some lower-cased skill and lists `t`. */
  ghost predicate Recommended(rows: seq<Row>, skills: seq<string>, t: string) {
    exists i, k :: 0 <= i < |skills| && 0 <= k < |rows|
                   && Contains(Lower(skills[i]), rows[k].key) && t in rows[k].titles
  }

  /** No keyword of `rows` occurs in any lower-cased skill. */
  predicate NoKeywordMatches(rows: seq<Row>, skills: seq<string>) {
    forall i, k :: 0 <= i < |skills| && 0 <= k < |rows| ==> !Contains(Lower(skills[i]), rows[k].key)
  }

  lemma {:induction false} TitlesForIff(lower: string, rows: seq<Row>, t: string)
    ensures t in TitlesFor(lower, rows) <==>
            exists k :: 0 <= k < |rows| && Contains(lower, rows[k].key) && t in rows[k].titles
  {
    if rows != [] {
      var init := rows[..|rows| - 1];
      TitlesForIff(lower, init, t);
      if exists k :: 0 <= k < |rows| && Contains(lower, rows[k].key) && t in rows[k].titles {
        var k :| 0 <= k < |rows| && Contains(lower, rows[k].key) && t in rows[k].titles;
        if k < |init| {
          assert init[k] == rows[k];
        }
      }
      if exists k :: 0 <= k < |init| && Contains(lower, init[k].key) && t in init[k].titles {
        var k :| 0 <= k < |init| && Contains(lower, init[k].key) && t in init[k].titles;
        assert rows[k] == init[k];
      }
    }
  }

  /** The accumulated set holds exactly the titles the rule recommends. */
  lemma {:induction false} MatchedIff(rows: seq<Row>, skills: seq<string>, t: string)
    ensures t in MatchedIn(rows, skills) <==> Recommended(rows, skills, t)
  {
    if skills != [] {
      var init := skills[..|skills| - 1];
      var last := |skills| - 1;
      MatchedIff(rows, init, t);
      TitlesForIff(Lower(skills[last]), rows, t);
      if Recommended(rows, skills, t) {
        var i, k :| 0 <= i < |skills| && 0 <= k < |rows|
                    && Contains(Lower(skills[i]), rows[k].key) && t in rows[k].titles;
        if i < last {
          assert init[i] == skills[i];
          assert Recommended(rows, init, t);
        }
      }
      if Recommended(rows, init, t) {
        var i, k :| 0 <= i < |init| && 0 <= k < |rows|
                    && Contains(Lower(init[i]), rows[k].key) && t in rows[k].titles;
        assert skills[i] == init[i];
      }
    }
  }

  /** With every keyword listing some title, nothing is matched exactly when
      no keyword occurs in any skill. */
  lemma MatchedEmptyIff(rows: seq<Row>, skills: seq<string>)
    requires forall k :: 0 <= k < |rows| ==> rows[k].titles != []
    ensures MatchedIn(rows, skills) == {} <==> NoKeywordMatches(rows, skills)
  {
    if !NoKeywordMatches(rows, skills) {
      var i, k :| 0 <= i < |skills| && 0 <= k < |rows| && Contains(Lower(skills[i]), rows[k].key);
      var t := rows[k].titles[0];
      MatchedIff(rows, skills, t);
    } else if MatchedIn(rows, skills) != {} {
      var t :| t in MatchedIn(rows, skills);
      MatchedIff(rows, skills, t);
    }
  }

  /** "Software Developer" is a default title that no keyword of the table lists. */
  lemma NeverMatchedSoftwareDeveloper(skills: seq<string>)
    ensures "Software Developer" !in Matched(skills)
  {
    forall k | 0 <= k < |SkillToJobs|
      ensures "Software Developer" !in SkillToJobs[k].titles
    {
    }
    MatchedIff(SkillToJobs, skills, "Software Developer");
  }

  /** The nested loop of `get_job_recommendations`: for every skill, lower-case
      it and add the titles of every keyword it contains. */
  method CollectTitles(rows: seq<Row>, skills: seq<string>) returns (found: set<string>)
    ensures found == MatchedIn(rows, skills)
  {
    found := {};
    for i := 0 to |skills|
      invariant found == MatchedIn(rows, skills[..i])
    {
      var lower := Lower(skills[i]);
      for k := 0 to |rows|
        invariant found == MatchedIn(rows, skills[..i]) + TitlesFor(lower, rows[..k])
      {
        assert rows[..k + 1][..k] == rows[..k];
        if Contains(lower, rows[k].key) {
          found := found + set t | t in rows[k].titles;
        }
      }
      assert rows[..|rows|] == rows;
      assert skills[..i + 1][..i] == skills[..i];
    }
    assert skills[..|skills|] == skills;
  }

  /** `list(s)` for a set: every element once, in no particular order. */
  method ListOf(s: set<string>) returns (xs: seq<string>)
    ensures forall t :: t in xs <==> t in s
    ensures Distinct(xs)
  {
    xs := [];
    var rest := s;
    while rest != {}
      invariant rest <= s
      invariant forall t :: t in xs <==> t in s && t !in rest
      invariant Distinct(xs)
      decreases rest
    {
      var t :| t in rest;
      xs := xs + [t];
      rest := rest - {t};
    }
  }

  /** `get_job_recommendations`: the matched titles in some order, or the
      default list when nothing matched.  The default list comes back exactly
      when no keyword occurs in any skill. */
  method JobRecommendations(skills: seq<string>) returns (jobs: seq<string>)
    ensures Matched(skills) == {} ==> jobs == DefaultJobs
    ensures Matched(skills) != {} ==> (forall t :: t in jobs <==> t in Matched(skills)) && Distinct(jobs)
    ensures jobs == DefaultJobs <==> NoKeywordMatches(SkillToJobs, skills)
  {
    var found := CollectTitles(SkillToJobs, skills);
    MatchedEmptyIff(SkillToJobs, skills);
    if found == {} {
      jobs := DefaultJobs;
    } else {
      jobs := ListOf(found);
      NeverMatchedSoftwareDeveloper(skills);
      assert DefaultJobs[1] !in jobs;
    }
  }

  /** A keyword inside a longer word matches: "JavaScript" contains "java". */
  lemma JavaScriptAlsoMatchesJava()
    ensures "Java Developer" in Matched(["JavaScript"])
    ensures "Frontend Developer" in Matched(["JavaScript"])
  {
    var lower := Lower("JavaScript");
    assert forall i | 0 <= i < |lower| :: lower[i] == "javascript"[i];
    assert lower == "javascript";
    assert Contains(lower, SkillToJobs[2].key) by { assert StartsWith(lower, "java"); }
    assert Contains(lower, SkillToJobs[1].key) by { assert StartsWith(lower, "javascript"); }
    MatchedIff(SkillToJobs, ["JavaScript"], "Java Developer");
    MatchedIff(SkillToJobs, ["JavaScript"], "Frontend Developer");
  }

  /** Two matching skills contribute the titles of both keywords. */
  lemma PythonAndSqlExample()
    ensures "Python Developer" in Matched(["Python", "SQL"])
    ensures "Database Administrator" in Matched(["Python", "SQL"])
  {
    var skills := ["Python", "SQL"];
    assert Lower("Python") == "python";
    assert Lower("SQL") == "sql";
    assert Contains(Lower(skills[0]), SkillToJobs[0].key) by { assert StartsWith("python", "python"); }
    assert Contains(Lower(skills[1]), SkillToJobs[3].key) by { assert StartsWith("sql", "sql"); }
    MatchedIff(SkillToJobs, skills, "Python Developer");
    MatchedIff(SkillToJobs, skills, "Database Administrator");
  }
}
