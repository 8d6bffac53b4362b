/** The conversation: one user's position in the form and the answers
    collected so far, and what each incoming update does to them.  The
    messaging transport classifies updates into the four kinds of `Event`;
    the bot's replies are reduced to which question is asked next, or the
    produced file and the job titles listed after it. */
module Session {
  import opened Opt
  import opened PyStr
  import opened FieldParser
  import opened Derivation
  import opened Renderer

  /** The form's states, in the order the questions are asked; Idle is the
      absence of a state. */
  datatype State = Idle | AwaitName | AwaitEmail | AwaitPhone | AwaitEducation | AwaitExperience
                 | AwaitSkills | AwaitProjects | AwaitTemplate | AwaitFormat

  /** The stored answers; a field is None until its question is answered. */
  datatype Data = Data(name: Option<string>, email: Option<string>, phone: Option<string>,
                       education: Option<seq<string>>, experience: Option<seq<string>>,
                       skills: Option<seq<string>>, projects: Option<seq<string>>,
                       template: Option<string>)

  const EmptyData := Data(None, None, None, None, None, None, None, None)

  /** An update: the /start and /build commands, any other text message,
      or the data of a pressed inline button. */
  datatype Event = StartCmd | BuildCmd | Text(text: string) | Callback(data: string)

  /** Welcome: the /start greeting.  Ask: the question for that state.
      Delivered: the file and the job titles listed after it.  Failed: the
      error message when the file could not be produced.  Silent: the update
      is not handled. */
  datatype Reply = Welcome | Ask(question: State) | Delivered(file: File, jobs: seq<string>) | Failed | Silent

  /** The position of a state in the form; Idle comes before the first question. */
  function Order(s: State): nat {
    match s
    case Idle => 0
    case AwaitName => 1
    case AwaitEmail => 2
    case AwaitPhone => 3
    case AwaitEducation => 4
    case AwaitExperience => 5
    case AwaitSkills => 6
    case AwaitProjects => 7
    case AwaitTemplate => 8
    case AwaitFormat => 9
  }

  /** The states whose answer is a text message. */
  predicate CollectsText(s: State) {
    1 <= Order(s) <= 7
  }

  /** `data.split(':')[1]`: the text between the first and the second colon. */
  function CallbackValue(c: string): (v: string)
    requires ':' in c
    ensures ':' !in v
  {
    CountZero(c, ':');
    SplitCount(c, ':', -1);
    SplitPieces(c, ':', -1);
    Split(c, ':', -1)[1]
  }

  lemma CallbackValueOf(prefix: string, v: string)
    requires ':' !in prefix && ':' !in v
    ensures CallbackValue(prefix + ":" + v) == v
  {
    var ps := [prefix, v];
    assert Join([':'], ps) == prefix + ":" + v;
    SplitAllUnique(prefix + ":" + v, ':', ps);
  }

  /** Whatever follows the value, from its closing colon on, is ignored: the
      value is the text between the first colon and the second one. */
  lemma CallbackValueOfRest(prefix: string, v: string, rest: string)
    requires ':' !in prefix && ':' !in v
    requires rest == [] || rest[0] == ':'
    ensures ':' in prefix + ":" + v + rest
    ensures CallbackValue(prefix + ":" + v + rest) == v
  {
    var c := prefix + ":" + v + rest;
    assert c[|prefix|] == ':';
    if rest == [] {
      assert c == prefix + ":" + v;
      CallbackValueOf(prefix, v);
    } else {
      assert c == prefix + [':'] + v + [':'] + rest[1..];
      SplitFirstTwo(prefix, v, ':', rest[1..]);
    }
  }

  predicate IsTemplateChoice(c: string) { StartsWith(c, "template:") }
  predicate IsFormatChoice(c: string) { StartsWith(c, "format:") }

  lemma ChoiceHasColon(c: string)
    requires IsTemplateChoice(c) || IsFormatChoice(c)
    ensures ':' in c
  {
    if IsTemplateChoice(c) {
      assert c[8] == ':';
    } else {
      assert c[6] == ':';
    }
  }

  /** What an update does to the state and the stored answers. */
  function Next(s: State, d: Data, ev: Event): (State, Data) {
    match ev
    case StartCmd => (s, d)
    case BuildCmd => (AwaitName, d)
    case Text(t) =>
      (match s
       case AwaitName => (AwaitEmail, d.(name := Some(t)))
       case AwaitEmail => (AwaitPhone, d.(email := Some(t)))
       case AwaitPhone => (AwaitEducation, d.(phone := Some(t)))
       case AwaitEducation => (AwaitExperience, d.(education := Some(SplitLines(t))))
       case AwaitExperience => (AwaitSkills, d.(experience := Some(SplitLines(t))))
       case AwaitSkills => (AwaitProjects, d.(skills := Some(ParseSkills(t))))
       case AwaitProjects => (AwaitTemplate, d.(projects := Some(ProjectsAnswer(t))))
       case _ => (s, d))
    case Callback(c) =>
      if s == AwaitTemplate && IsTemplateChoice(c) then
        ChoiceHasColon(c);
        (AwaitFormat, d.(template := Some(CallbackValue(c))))
      else if s == AwaitFormat && IsFormatChoice(c) then
        (Idle, EmptyData)
      else
        (s, d)
  }

  /** The reply to every update except a format choice in the format state. */
  function Response(s: State, ev: Event): Reply {
    match ev
    case StartCmd => Welcome
    case BuildCmd => Ask(AwaitName)
    case Text(_) => if CollectsText(s) then Ask(Next(s, EmptyData, ev).0) else Silent
    case Callback(c) => if s == AwaitTemplate && IsTemplateChoice(c) then Ask(AwaitFormat) else Silent
  }

  /** The answers a state relies on have been given: every question before
      it was answered, and nothing is stored while idle. */
  predicate Filled(s: State, d: Data) {
    (s == Idle ==> d == EmptyData)
    && (Order(s) >= 2 ==> d.name.Some?)
    && (Order(s) >= 3 ==> d.email.Some?)
    && (Order(s) >= 4 ==> d.phone.Some?)
    && (Order(s) >= 5 ==> d.education.Some?)
    && (Order(s) >= 6 ==> d.experience.Some?)
    && (Order(s) >= 7 ==> d.skills.Some?)
    && (Order(s) >= 8 ==> d.projects.Some?)
    && (Order(s) >= 9 ==> d.template.Some?)
  }

  predicate Complete(d: Data) {
    d.name.Some? && d.email.Some? && d.phone.Some? && d.education.Some? && d.experience.Some?
    && d.skills.Some? && d.projects.Some? && d.template.Some?
  }

  /** The record the generators read: the answers, the chosen format, the
      generated summary and the padded skill list. */
  function ResumeOf(d: Data, format: string): (r: Resume)
    requires Complete(d)
    ensures r.summary == Summary(d.name.value, d.skills.value)
    ensures r.enhancedSkills == Enhanced(d.skills.value)
  {
    Resume(d.name.value, d.email.value, d.phone.value, d.education.value, d.experience.value,
           d.projects.value, d.template.value, format,
           Summary(d.name.value, d.skills.value), Enhanced(d.skills.value))
  }

  /** `jobs[:5]`: at most the first five titles. */
  function Shown(jobs: seq<string>): (r: seq<string>)
    ensures |r| == Min(5, |jobs|)
    ensures r == jobs[..|r|]
  {
    jobs[..Min(5, |jobs|)]
  }

  /** What the job recommendation promises for the given skills. */
  ghost predicate RecommendationFor(skills: seq<string>, jobs: seq<string>) {
    (Matched(skills) == {} ==> jobs == DefaultJobs)
    && (Matched(skills) != {} ==> (forall t :: t in jobs <==> t in Matched(skills)) && Distinct(jobs))
  }

  /** The updates `evs` applied in turn. */
  function Run(s: State, d: Data, evs: seq<Event>): (State, Data)
    decreases |evs|
  {
    if evs == [] then (s, d)
    else
      var n := Next(s, d, evs[0]);
      Run(n.0, n.1, evs[1..])
  }

  // ------------------------------------------------ properties of a step

  /** Every update keeps the stored answers in step with the state. */
  lemma NextKeepsFilled(s: State, d: Data, ev: Event)
    requires Filled(s, d)
    ensures Filled(Next(s, d, ev).0, Next(s, d, ev).1)
  {
  }

  /** /build always goes back to the first question and keeps what was stored. */
  lemma BuildRestarts(s: State, d: Data)
    ensures Next(s, d, BuildCmd) == (AwaitName, d)
  {
  }

  /** /start changes nothing. */
  lemma StartChangesNothing(s: State, d: Data)
    ensures Next(s, d, StartCmd) == (s, d)
  {
  }

  /** A text message answers the current question and moves to the next
      one; outside the text questions it is ignored. */
  lemma TextAdvances(s: State, d: Data, t: string)
    ensures CollectsText(s) ==> Order(Next(s, d, Text(t)).0) == Order(s) + 1
    ensures !CollectsText(s) ==> Next(s, d, Text(t)) == (s, d)
  {
  }

  /** A button press counts only in its own state and with its own prefix. */
  lemma CallbackGuards(s: State, d: Data, c: string)
    ensures Next(s, d, Callback(c)).0 != s
            <==> (s == AwaitTemplate && IsTemplateChoice(c)) || (s == AwaitFormat && IsFormatChoice(c))
  {
  }

  /** The form is left only by choosing a format, and that clears the stored answers. */
  lemma OnlyFormatChoiceFinishes(s: State, d: Data, ev: Event)
    requires s != Idle && Next(s, d, ev).0 == Idle
    ensures s == AwaitFormat && ev.Callback? && IsFormatChoice(ev.data)
    ensures Next(s, d, ev).1 == EmptyData
  {
  }

  /** In the format state every answer has been given. */
  lemma FormatStateIsComplete(s: State, d: Data)
    requires Filled(s, d) && s == AwaitFormat
    ensures Complete(d)
  {
  }

  /** A whole dialogue from the start: /build, the seven text answers and a
      template button lead to the format question with every answer stored. */
  lemma {:induction false} FullDialogue(d0: Data, name: string, email: string, phone: string,
                                        edu: string, exp: string, skills: string, projects: string,
                                        tid: string)
    requires ':' !in tid
    ensures Run(Idle, d0, [BuildCmd, Text(name), Text(email), Text(phone), Text(edu), Text(exp),
                           Text(skills), Text(projects), Callback("template:" + tid)])
            == (AwaitFormat, d0.(name := Some(name), email := Some(email), phone := Some(phone),
                                 education := Some(SplitLines(edu)), experience := Some(SplitLines(exp)),
                                 skills := Some(ParseSkills(skills)), projects := Some(ProjectsAnswer(projects)),
                                 template := Some(tid)))
  {
    var c := "template:" + tid;
    var d3 := d0.(name := Some(name), email := Some(email), phone := Some(phone));
    var d7 := d3.(education := Some(SplitLines(edu)), experience := Some(SplitLines(exp)),
                  skills := Some(ParseSkills(skills)), projects := Some(ProjectsAnswer(projects)));
    var contact := [Text(name), Text(email), Text(phone)];
    var history := [Text(edu), Text(exp), Text(skills), Text(projects)];
    ContactAnswers(d0, name, email, phone);
    HistoryAnswers(d3, edu, exp, skills, projects);
    TemplateChoice(d7, tid);
    RunAppend(AwaitName, d0, contact, history);
    RunAppend(AwaitName, d0, contact + history, [Callback(c)]);
    RunStep(Idle, d0, BuildCmd, contact + history + [Callback(c)]);
    assert [BuildCmd] + (contact + history + [Callback(c)])
           == [BuildCmd, Text(name), Text(email), Text(phone), Text(edu), Text(exp),
               Text(skills), Text(projects), Callback(c)];
  }

  lemma ContactAnswers(d: Data, name: string, email: string, phone: string)
    ensures Run(AwaitName, d, [Text(name), Text(email), Text(phone)])
            == (AwaitEducation, d.(name := Some(name), email := Some(email), phone := Some(phone)))
  {
    RunStep(AwaitPhone, d.(name := Some(name), email := Some(email)), Text(phone), []);
    RunStep(AwaitEmail, d.(name := Some(name)), Text(email), [Text(phone)]);
    RunStep(AwaitName, d, Text(name), [Text(email), Text(phone)]);
    assert [Text(name)] + [Text(email), Text(phone)] == [Text(name), Text(email), Text(phone)];
    assert [Text(email)] + [Text(phone)] == [Text(email), Text(phone)];
    assert [Text(phone)] + [] == [Text(phone)];
  }

  lemma HistoryAnswers(d: Data, edu: string, exp: string, skills: string, projects: string)
    ensures Run(AwaitEducation, d, [Text(edu), Text(exp), Text(skills), Text(projects)])
            == (AwaitTemplate, d.(education := Some(SplitLines(edu)), experience := Some(SplitLines(exp)),
                                  skills := Some(ParseSkills(skills)), projects := Some(ProjectsAnswer(projects))))
  {
    var d1 := d.(education := Some(SplitLines(edu)));
    var d2 := d1.(experience := Some(SplitLines(exp)));
    var d3 := d2.(skills := Some(ParseSkills(skills)));
    RunStep(AwaitProjects, d3, Text(projects), []);
    RunStep(AwaitSkills, d2, Text(skills), [Text(projects)]);
    RunStep(AwaitExperience, d1, Text(exp), [Text(skills), Text(projects)]);
    RunStep(AwaitEducation, d, Text(edu), [Text(exp), Text(skills), Text(projects)]);
    assert [Text(edu)] + [Text(exp), Text(skills), Text(projects)] == [Text(edu), Text(exp), Text(skills), Text(projects)];
    assert [Text(exp)] + [Text(skills), Text(projects)] == [Text(exp), Text(skills), Text(projects)];
    assert [Text(skills)] + [Text(projects)] == [Text(skills), Text(projects)];
    assert [Text(projects)] + [] == [Text(projects)];
  }

  lemma TemplateChoice(d: Data, tid: string)
    requires ':' !in tid
    ensures Run(AwaitTemplate, d, [Callback("template:" + tid)]) == (AwaitFormat, d.(template := Some(tid)))
  {
    var c := "template:" + tid;
    assert IsTemplateChoice(c) by { assert c[..9] == "template:"; }
    CallbackValueOf("template", tid);
    assert "template" + ":" + tid == c;
    RunStep(AwaitTemplate, d, Callback(c), []);
    assert [Callback(c)] + [] == [Callback(c)];
  }

  /** Applying two runs of updates one after the other. */
  lemma {:induction false} RunAppend(s: State, d: Data, a: seq<Event>, b: seq<Event>)
    ensures Run(s, d, a + b) == Run(Run(s, d, a).0, Run(s, d, a).1, b)
    decreases |a|
  {
    if a != [] {
      var n := Next(s, d, a[0]);
      assert (a + b)[1..] == a[1..] + b;
      RunAppend(n.0, n.1, a[1..], b);
    } else {
      assert a + b == b;
    }
  }

  lemma RunStep(s: State, d: Data, ev: Event, rest: seq<Event>)
    ensures Run(s, d, [ev] + rest) == Run(Next(s, d, ev).0, Next(s, d, ev).1, rest)
  {
    assert ([ev] + rest)[1..] == rest;
  }

  // ------------------------------------------------ one user's conversation

  /** One user's conversation as the storage holds it. */
  class Conversation {
    var state: State
    var data: Data

    ghost predicate Valid()
      reads this
    {
      Filled(state, data)
    }

    constructor()
      ensures state == Idle && data == EmptyData
      ensures Valid()
    {
      state := Idle;
      data := EmptyData;
    }

    /** Handles one update.  A format choice in the format state builds the
        resume, produces the file unless `fails` (the generator raising),
        lists the job titles, and clears the conversation either way. */
    method Step(ev: Event, fails: bool) returns (reply: Reply)
      requires Valid()
      modifies this
      ensures Valid()
      ensures (state, data) == Next(old(state), old(data), ev)
      ensures !(old(state) == AwaitFormat && ev.Callback? && IsFormatChoice(ev.data))
              ==> reply == Response(old(state), ev)
      ensures old(state) == AwaitFormat && ev.Callback? && IsFormatChoice(ev.data) ==>
                && Complete(old(data))
                && (fails <==> reply == Failed)
                && (!fails ==> reply.Delivered?)
                && (reply.Delivered? ==>
                      && ':' in ev.data
                      && reply.file == Rendered(ResumeOf(old(data), CallbackValue(ev.data)))
                      && exists jobs :: RecommendationFor(old(data).skills.value, jobs) && reply.jobs == Shown(jobs))
    {
      NextKeepsFilled(state, data, ev);
      if state == AwaitFormat && ev.Callback? && IsFormatChoice(ev.data) {
        FormatStateIsComplete(state, data);
        ChoiceHasColon(ev.data);
        var d := data;
        var format := CallbackValue(ev.data);
        var skills := d.skills.value;
        var summary := Summary(d.name.value, skills);
        var enhanced := EnhanceSkills(skills);
        var resume := Resume(d.name.value, d.email.value, d.phone.value, d.education.value,
                             d.experience.value, d.projects.value, d.template.value, format,
                             summary, enhanced);
        assert resume == ResumeOf(d, format);
        if fails {
          reply := Failed;
        } else {
          var file := Render(resume);
          var jobs := JobRecommendations(skills);
          assert RecommendationFor(skills, jobs);
          reply := Delivered(file, Shown(jobs));
        }
        state, data := Idle, EmptyData;
      } else {
        reply := Response(state, ev);
        var n := Next(state, data, ev);
        state, data := n.0, n.1;
      }
    }
  }
}
