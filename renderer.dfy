/** The document renderer.  Each output format is modelled as the sequence
    of styled text items the generator writes, in order: the PDF generator's
    cells and the DOCX generator's headings, paragraphs and runs.  Layout
    (sizes, widths, wrapping, pages) and the binary container are not
    modelled. */
module Renderer {
  import opened Opt
  import opened PyStr
  import opened FieldParser

  /** Title is the name line; Heading a section heading; Bold, Italic and
      Body the text of entries and paragraphs. */
  datatype Style = Title | Heading | Bold | Italic | Body
  datatype Item = Item(style: Style, text: string)

  datatype Font = Helvetica | Times | Courier
  datatype Format = Pdf | Docx
  datatype Document = PdfDocument(font: Font, items: seq<Item>) | DocxDocument(items: seq<Item>)
  datatype File = File(filename: string, doc: Document)

  datatype Section = SummarySection | ExperienceSection | EducationSection | SkillsSection | ProjectsSection

  /** The completed record as the generators read it: the stored answers
      plus the derived summary and padded skill list. */
  datatype Resume = Resume(name: string, email: string, phone: string,
                           education: seq<string>, experience: seq<string>, projects: seq<string>,
                           template: string, format: string,
                           summary: string, enhancedSkills: seq<string>)

  /** The font family of a template; an unknown template gets Courier. */
  function FontFor(template: string): (f: Font)
    ensures f == Helvetica <==> template == "professional" || template == "creative"
    ensures f == Times <==> template == "academic"
  {
    if template == "professional" then Helvetica
    else if template == "creative" then Helvetica
    else if template == "academic" then Times
    else Courier
  }

  const PdfExt := ".pdf"
  const DocxExt := ".docx"

  /** The output file name: "resume_", then the name with every space made
      an underscore and lower-cased, then the extension. */
  function Filename(name: string, ext: string): (f: string)
    ensures |f| == |"resume_"| + |name| + |ext|
    ensures StartsWith(f, "resume_") && f[|f| - |ext|..] == ext
    ensures ' ' !in f[|"resume_"|..|f| - |ext|]
    ensures forall i :: 0 <= i < |name| ==>
              f[|"resume_"| + i] == (if name[i] == ' ' then '_' else LowerChar(name[i]))
  {
    var stem := Lower(Replace(name, ' ', '_'));
    var f := "resume_" + stem + ext;
    assert f[|"resume_"|..|f| - |ext|] == stem;
    assert f[..|"resume_"|] == "resume_";
    f
  }

  /** "John Doe" asking for a PDF gets "resume_john_doe.pdf". */
  lemma FilenameExample()
    ensures Filename("John Doe", PdfExt) == "resume_john_doe.pdf"
  {
    var stem := Lower(Replace("John Doe", ' ', '_'));
    assert forall i | 0 <= i < |stem| :: stem[i] == "john_doe"[i];
    assert stem == "john_doe";
  }

  /** The file name's extension follows the requested format, any format
      other than "pdf" giving a DOCX file. */
  function ExtensionFor(format: string): string {
    if format == "pdf" then PdfExt else DocxExt
  }

  function HeadingText(fmt: Format, sec: Section): string {
    match fmt
    case Pdf =>
      (match sec
       case SummarySection => "PROFESSIONAL SUMMARY"
       case ExperienceSection => "WORK EXPERIENCE"
       case EducationSection => "EDUCATION"
       case SkillsSection => "SKILLS"
       case ProjectsSection => "PROJECTS")
    case Docx =>
      (match sec
       case SummarySection => "Professional Summary"
       case ExperienceSection => "Work Experience"
       case EducationSection => "Education"
       case SkillsSection => "Skills"
       case ProjectsSection => "Projects")
  }

  /** A bold or italic run: DOCX ends it with a line break, PDF puts it in a cell of its own. */
  function Line(fmt: Format, text: string): string {
    if fmt == Docx then text + "\n" else text
  }

  function Contact(email: string, phone: string): string {
    "Email: " + email + " | Phone: " + phone
  }

  /** An item that belongs to an entry or a paragraph, not a heading or the title. */
  predicate IsContent(it: Item) {
    it.style != Heading && it.style != Title
  }

  /** One experience entry: "position - company" in bold, the duration in
      italics, the description as body text. */
  function ExperienceEntry(fmt: Format, e: Experience): (items: seq<Item>)
    ensures forall i :: 0 <= i < |items| ==> IsContent(items[i])
  {
    [Item(Bold, Line(fmt, e.position + " - " + e.company)), Item(Italic, Line(fmt, e.duration)), Item(Body, e.description)]
  }

  /** One education entry: the degree in bold, then "institution, year". */
  function EducationEntry(fmt: Format, e: Education): (items: seq<Item>)
    ensures forall i :: 0 <= i < |items| ==> IsContent(items[i])
  {
    [Item(Bold, Line(fmt, e.degree)), Item(Body, e.institution + ", " + e.year)]
  }

  /** One project entry: the name in bold, then the description. */
  function ProjectEntry(fmt: Format, p: Project): (items: seq<Item>)
    ensures forall i :: 0 <= i < |items| ==> IsContent(items[i])
  {
    [Item(Bold, Line(fmt, p.name)), Item(Body, p.description)]
  }

  /** The items one experience line gives: its entry, or nothing. */
  function ExperienceLine(fmt: Format, line: string): (items: seq<Item>)
    ensures forall i :: 0 <= i < |items| ==> IsContent(items[i])
  {
    match ParseExperience(line)
    case Some(e) => ExperienceEntry(fmt, e)
    case None => []
  }

  /** The items one education line gives: its entry, or nothing. */
  function EducationLine(fmt: Format, line: string): (items: seq<Item>)
    ensures forall i :: 0 <= i < |items| ==> IsContent(items[i])
  {
    match ParseEducation(line)
    case Some(e) => EducationEntry(fmt, e)
    case None => []
  }

  /** The items of the experience lines, skipping lines that give no entry. */
  function ExperienceItems(fmt: Format, lines: seq<string>): (items: seq<Item>)
    ensures forall i :: 0 <= i < |items| ==> IsContent(items[i])
  {
    if lines == [] then []
    else ExperienceItems(fmt, lines[..|lines| - 1]) + ExperienceLine(fmt, lines[|lines| - 1])
  }

  /** The items of the education lines, skipping lines that give no entry. */
  function EducationItems(fmt: Format, lines: seq<string>): (items: seq<Item>)
    ensures forall i :: 0 <= i < |items| ==> IsContent(items[i])
  {
    if lines == [] then []
    else EducationItems(fmt, lines[..|lines| - 1]) + EducationLine(fmt, lines[|lines| - 1])
  }

  /** The items of the project lines, one entry per line. */
  function ProjectItems(fmt: Format, lines: seq<string>): (items: seq<Item>)
    ensures forall i :: 0 <= i < |items| ==> IsContent(items[i])
  {
    if lines == [] then []
    else ProjectItems(fmt, lines[..|lines| - 1]) + ProjectEntry(fmt, ParseProject(lines[|lines| - 1]))
  }

  /** The name, the contact line and the summary section. */
  function Opening(r: Resume, fmt: Format): seq<Item> {
    [Item(Title, r.name), Item(Body, Contact(r.email, r.phone)),
     Item(Heading, HeadingText(fmt, SummarySection)), Item(Body, r.summary)]
  }

  /** The projects section is left out altogether when there are no project lines. */
  function ProjectsSectionItems(fmt: Format, lines: seq<string>): seq<Item> {
    if lines != [] then [Item(Heading, HeadingText(fmt, ProjectsSection))] + ProjectItems(fmt, lines)
    else []
  }

  /** Name, contact line, summary, experience, education and skills: the
      sections every document has. */
  function MainSections(r: Resume, fmt: Format): seq<Item> {
    Opening(r, fmt)
    + [Item(Heading, HeadingText(fmt, ExperienceSection))] + ExperienceItems(fmt, r.experience)
    + [Item(Heading, HeadingText(fmt, EducationSection))] + EducationItems(fmt, r.education)
    + [Item(Heading, HeadingText(fmt, SkillsSection)), Item(Body, Join(", ", r.enhancedSkills))]
  }

  /** The whole document in order: the main sections, then projects when
      there are any. */
  function Layout(r: Resume, fmt: Format): seq<Item> {
    MainSections(r, fmt) + ProjectsSectionItems(fmt, r.projects)
  }

  /** The loop over the experience lines: each line that parses adds its
      heading run, its duration run and its description paragraph. */
  method WriteExperience(fmt: Format, lines: seq<string>) returns (items: seq<Item>)
    ensures items == ExperienceItems(fmt, lines)
  {
    items := [];
    for i := 0 to |lines|
      invariant items == ExperienceItems(fmt, lines[..i])
    {
      ExperienceItemsStep(fmt, lines, i);
      var parsed := ParseExperience(lines[i]);
      if parsed.Some? {
        var e := parsed.value;
        ghost var before := items;
        items := items + [Item(Bold, Line(fmt, e.position + " - " + e.company))];
        items := items + [Item(Italic, Line(fmt, e.duration))];
        items := items + [Item(Body, e.description)];
        AppendThree(before, ExperienceEntry(fmt, e));
      } else {
        AppendNothing(items);
      }
    }
    assert lines[..|lines|] == lines;
  }

  /** The loop over the education lines: each line that parses adds its
      degree run and its "institution, year" paragraph. */
  method WriteEducation(fmt: Format, lines: seq<string>) returns (items: seq<Item>)
    ensures items == EducationItems(fmt, lines)
  {
    items := [];
    for i := 0 to |lines|
      invariant items == EducationItems(fmt, lines[..i])
    {
      EducationItemsStep(fmt, lines, i);
      var parsed := ParseEducation(lines[i]);
      if parsed.Some? {
        var e := parsed.value;
        ghost var before := items;
        items := items + [Item(Bold, Line(fmt, e.degree))];
        items := items + [Item(Body, e.institution + ", " + e.year)];
        AppendTwo(before, EducationEntry(fmt, e));
      } else {
        AppendNothing(items);
      }
    }
    assert lines[..|lines|] == lines;
  }

  /** The loop over the project lines: every line adds its name run and its
      description paragraph. */
  method WriteProjects(fmt: Format, lines: seq<string>) returns (items: seq<Item>)
    ensures items == ProjectItems(fmt, lines)
  {
    items := [];
    for i := 0 to |lines|
      invariant items == ProjectItems(fmt, lines[..i])
    {
      ProjectItemsStep(fmt, lines, i);
      var p := ParseProject(lines[i]);
      ghost var before := items;
      items := items + [Item(Bold, Line(fmt, p.name))];
      items := items + [Item(Body, p.description)];
      AppendTwo(before, ProjectEntry(fmt, p));
    }
    assert lines[..|lines|] == lines;
  }

  /** One more line extends the experience items by that line's items. */
  lemma ExperienceItemsStep(fmt: Format, lines: seq<string>, i: nat)
    requires i < |lines|
    ensures ExperienceItems(fmt, lines[..i + 1]) == ExperienceItems(fmt, lines[..i]) + ExperienceLine(fmt, lines[i])
  {
    assert lines[..i + 1][..i] == lines[..i];
  }

  /** One more line extends the education items by that line's items. */
  lemma EducationItemsStep(fmt: Format, lines: seq<string>, i: nat)
    requires i < |lines|
    ensures EducationItems(fmt, lines[..i + 1]) == EducationItems(fmt, lines[..i]) + EducationLine(fmt, lines[i])
  {
    assert lines[..i + 1][..i] == lines[..i];
  }

  /** One more line extends the project items by that line's entry. */
  lemma ProjectItemsStep(fmt: Format, lines: seq<string>, i: nat)
    requires i < |lines|
    ensures ProjectItems(fmt, lines[..i + 1]) == ProjectItems(fmt, lines[..i]) + ProjectEntry(fmt, ParseProject(lines[i]))
  {
    assert lines[..i + 1][..i] == lines[..i];
  }

  /** The projects section: written only when there are project lines. */
  method WriteProjectsSection(fmt: Format, lines: seq<string>) returns (items: seq<Item>)
    ensures items == ProjectsSectionItems(fmt, lines)
  {
    items := [];
    if lines != [] {
      var entries := WriteProjects(fmt, lines);
      items := [Item(Heading, HeadingText(fmt, ProjectsSection))] + entries;
    }
  }

  lemma AppendThree(a: seq<Item>, b: seq<Item>)
    requires |b| == 3
    ensures a + [b[0]] + [b[1]] + [b[2]] == a + b
  {
  }

  lemma AppendTwo(a: seq<Item>, b: seq<Item>)
    requires |b| == 2
    ensures a + [b[0]] + [b[1]] == a + b
  {
  }

  lemma AppendNothing(a: seq<Item>)
    ensures a + [] == a
  {
  }

  /** The sections in the order both generators write them. */
  lemma ComposeLayout(r: Resume, fmt: Format, experience: seq<Item>, education: seq<Item>, projects: seq<Item>)
    requires experience == ExperienceItems(fmt, r.experience)
    requires education == EducationItems(fmt, r.education)
    requires projects == ProjectsSectionItems(fmt, r.projects)
    ensures Opening(r, fmt)
            + [Item(Heading, HeadingText(fmt, ExperienceSection))] + experience
            + [Item(Heading, HeadingText(fmt, EducationSection))] + education
            + [Item(Heading, HeadingText(fmt, SkillsSection)), Item(Body, Join(", ", r.enhancedSkills))]
            + projects
            == Layout(r, fmt)
  {
  }

  /** `generate_pdf_resume`: one cell per line of text, in the template's font. */
  method RenderPdf(r: Resume) returns (f: File)
    ensures f == File(Filename(r.name, PdfExt), PdfDocument(FontFor(r.template), Layout(r, Pdf)))
  {
    var items := [Item(Title, r.name), Item(Body, Contact(r.email, r.phone)),
                  Item(Heading, HeadingText(Pdf, SummarySection)), Item(Body, r.summary)];
    items := items + [Item(Heading, HeadingText(Pdf, ExperienceSection))];
    var experience := WriteExperience(Pdf, r.experience);
    items := items + experience;
    items := items + [Item(Heading, HeadingText(Pdf, EducationSection))];
    var education := WriteEducation(Pdf, r.education);
    items := items + education;
    items := items + [Item(Heading, HeadingText(Pdf, SkillsSection)), Item(Body, Join(", ", r.enhancedSkills))];
    var projects := WriteProjectsSection(Pdf, r.projects);
    items := items + projects;
    ComposeLayout(r, Pdf, experience, education, projects);
    f := File(Filename(r.name, PdfExt), PdfDocument(FontFor(r.template), items));
  }

  /** `generate_docx_resume`: headings, and paragraphs made of runs; the
      template is read but not used. */
  method RenderDocx(r: Resume) returns (f: File)
    ensures f == File(Filename(r.name, DocxExt), DocxDocument(Layout(r, Docx)))
  {
    var items := [Item(Title, r.name), Item(Body, Contact(r.email, r.phone)),
                  Item(Heading, HeadingText(Docx, SummarySection)), Item(Body, r.summary)];
    items := items + [Item(Heading, HeadingText(Docx, ExperienceSection))];
    var experience := WriteExperience(Docx, r.experience);
    items := items + experience;
    items := items + [Item(Heading, HeadingText(Docx, EducationSection))];
    var education := WriteEducation(Docx, r.education);
    items := items + education;
    items := items + [Item(Heading, HeadingText(Docx, SkillsSection)), Item(Body, Join(", ", r.enhancedSkills))];
    var projects := WriteProjectsSection(Docx, r.projects);
    items := items + projects;
    ComposeLayout(r, Docx, experience, education, projects);
    f := File(Filename(r.name, DocxExt), DocxDocument(items));
  }

  /** The file the format step produces: PDF for "pdf", DOCX for anything else. */
  function Rendered(r: Resume): (f: File)
    ensures f.filename == Filename(r.name, ExtensionFor(r.format))
    ensures f.doc.PdfDocument? <==> r.format == "pdf"
  {
    if r.format == "pdf" then File(Filename(r.name, PdfExt), PdfDocument(FontFor(r.template), Layout(r, Pdf)))
    else File(Filename(r.name, DocxExt), DocxDocument(Layout(r, Docx)))
  }

  /** The format dispatch of the format step. */
  method Render(r: Resume) returns (f: File)
    ensures f == Rendered(r)
  {
    if r.format == "pdf" {
      f := RenderPdf(r);
    } else {
      f := RenderDocx(r);
    }
  }

  // ------------------------------------------------ the two formats agree

  function DropNewline(s: string): string {
    if s != [] && s[|s| - 1] == '\n' then s[..|s| - 1] else s
  }

  /** Headings compared without letter case, runs without the line break
      DOCX ends them with. */
  function Normalise(it: Item): Item {
    match it.style
    case Heading => Item(Heading, Upper(it.text))
    case Bold => Item(Bold, DropNewline(it.text))
    case Italic => Item(Italic, DropNewline(it.text))
    case _ => it
  }

  function NormaliseAll(items: seq<Item>): (r: seq<Item>)
    ensures |r| == |items|
  {
    seq(|items|, i requires 0 <= i < |items| => Normalise(items[i]))
  }

  lemma NormaliseAppend(a: seq<Item>, b: seq<Item>)
    ensures NormaliseAll(a + b) == NormaliseAll(a) + NormaliseAll(b)
  {
    assert forall i :: 0 <= i < |a| + |b| ==>
      NormaliseAll(a + b)[i] == (NormaliseAll(a) + NormaliseAll(b))[i];
  }

  /** The PDF headings are the DOCX headings in upper case, and are upper
      case themselves. */
  lemma HeadingsAgree(sec: Section)
    ensures Upper(HeadingText(Docx, sec)) == HeadingText(Pdf, sec)
    ensures Upper(HeadingText(Pdf, sec)) == HeadingText(Pdf, sec)
  {
    match sec
    case SummarySection => UpperByChars("Professional Summary", "PROFESSIONAL SUMMARY");
    case ExperienceSection => UpperByChars("Work Experience", "WORK EXPERIENCE");
    case EducationSection => UpperByChars("Education", "EDUCATION");
    case SkillsSection => UpperByChars("Skills", "SKILLS");
    case ProjectsSection => UpperByChars("Projects", "PROJECTS");
  }

  lemma UpperByChars(d: string, p: string)
    requires |d| == |p|
    requires forall i | 0 <= i < |d| :: UpperChar(d[i]) == p[i] && UpperChar(p[i]) == p[i]
    ensures Upper(d) == p && Upper(p) == p
  {
  }

  /** A run whose text does not already end with a line break. */
  predicate NoTrailingBreak(s: string) {
    s == [] || s[|s| - 1] != '\n'
  }

  lemma DropAddedBreak(s: string)
    ensures DropNewline(s + "\n") == s
  {
    assert (s + "\n")[..|s|] == s;
  }

  lemma ExperienceEntryAgrees(e: Experience)
    requires Stripped(e.company) && Stripped(e.duration)
    ensures NormaliseAll(ExperienceEntry(Docx, e)) == ExperienceEntry(Pdf, e)
    ensures NormaliseAll(ExperienceEntry(Pdf, e)) == ExperienceEntry(Pdf, e)
  {
    var head := e.position + " - " + e.company;
    DropAddedBreak(head);
    DropAddedBreak(e.duration);
    assert NoTrailingBreak(head) by {
      if e.company == [] {
        assert head[|head| - 1] == ' ';
      } else {
        assert head[|head| - 1] == e.company[|e.company| - 1];
      }
    }
    assert NoTrailingBreak(e.duration);
  }

  lemma EducationEntryAgrees(e: Education)
    requires Stripped(e.degree)
    ensures NormaliseAll(EducationEntry(Docx, e)) == EducationEntry(Pdf, e)
    ensures NormaliseAll(EducationEntry(Pdf, e)) == EducationEntry(Pdf, e)
  {
    DropAddedBreak(e.degree);
    assert NoTrailingBreak(e.degree);
  }

  lemma ProjectEntryAgrees(p: Project)
    requires Stripped(p.name)
    ensures NormaliseAll(ProjectEntry(Docx, p)) == ProjectEntry(Pdf, p)
    ensures NormaliseAll(ProjectEntry(Pdf, p)) == ProjectEntry(Pdf, p)
  {
    DropAddedBreak(p.name);
    assert NoTrailingBreak(p.name);
  }

  lemma {:induction false} ExperienceItemsAgree(lines: seq<string>)
    ensures NormaliseAll(ExperienceItems(Docx, lines)) == ExperienceItems(Pdf, lines)
    ensures NormaliseAll(ExperienceItems(Pdf, lines)) == ExperienceItems(Pdf, lines)
  {
    if lines != [] {
      var init, last := lines[..|lines| - 1], lines[|lines| - 1];
      ExperienceItemsAgree(init);
      ExperienceStripped(last);
      var parsed := ParseExperience(last);
      if parsed.Some? {
        ExperienceEntryAgrees(parsed.value);
      }
      NormaliseAppend(ExperienceItems(Docx, init), ExperienceLine(Docx, last));
      NormaliseAppend(ExperienceItems(Pdf, init), ExperienceLine(Pdf, last));
    }
  }

  lemma {:induction false} EducationItemsAgree(lines: seq<string>)
    ensures NormaliseAll(EducationItems(Docx, lines)) == EducationItems(Pdf, lines)
    ensures NormaliseAll(EducationItems(Pdf, lines)) == EducationItems(Pdf, lines)
  {
    if lines != [] {
      var init, last := lines[..|lines| - 1], lines[|lines| - 1];
      EducationItemsAgree(init);
      EducationStripped(last);
      var parsed := ParseEducation(last);
      if parsed.Some? {
        EducationEntryAgrees(parsed.value);
      }
      NormaliseAppend(EducationItems(Docx, init), EducationLine(Docx, last));
      NormaliseAppend(EducationItems(Pdf, init), EducationLine(Pdf, last));
    }
  }

  lemma {:induction false} ProjectItemsAgree(lines: seq<string>)
    ensures NormaliseAll(ProjectItems(Docx, lines)) == ProjectItems(Pdf, lines)
    ensures NormaliseAll(ProjectItems(Pdf, lines)) == ProjectItems(Pdf, lines)
  {
    if lines != [] {
      var init := lines[..|lines| - 1];
      ProjectItemsAgree(init);
      var p := ParseProject(lines[|lines| - 1]);
      ProjectStripped(lines[|lines| - 1]);
      ProjectEntryAgrees(p);
      NormaliseAppend(ProjectItems(Docx, init), ProjectEntry(Docx, p));
      NormaliseAppend(ProjectItems(Pdf, init), ProjectEntry(Pdf, p));
    }
  }

  lemma OpeningAgrees(r: Resume, fmt: Format)
    ensures NormaliseAll(Opening(r, fmt)) == Opening(r, Pdf)
  {
    HeadingsAgree(SummarySection);
  }

  lemma HeadingAgrees(fmt: Format, sec: Section)
    ensures NormaliseAll([Item(Heading, HeadingText(fmt, sec))]) == [Item(Heading, HeadingText(Pdf, sec))]
  {
    HeadingsAgree(sec);
  }

  lemma SkillsAgree(fmt: Format, skills: seq<string>)
    ensures NormaliseAll([Item(Heading, HeadingText(fmt, SkillsSection)), Item(Body, Join(", ", skills))])
            == [Item(Heading, HeadingText(Pdf, SkillsSection)), Item(Body, Join(", ", skills))]
  {
    HeadingsAgree(SkillsSection);
  }

  lemma ProjectsSectionAgrees(fmt: Format, lines: seq<string>)
    ensures NormaliseAll(ProjectsSectionItems(fmt, lines)) == ProjectsSectionItems(Pdf, lines)
  {
    if lines != [] {
      HeadingAgrees(fmt, ProjectsSection);
      ProjectItemsAgree(lines);
      NormaliseAppend([Item(Heading, HeadingText(fmt, ProjectsSection))], ProjectItems(fmt, lines));
    }
  }

  /** Either format's items, compared without heading case and without the
      line breaks after runs, are the PDF items. */
  lemma LayoutAgrees(r: Resume, fmt: Format)
    ensures NormaliseAll(Layout(r, fmt)) == Layout(r, Pdf)
  {
    var a1 := Opening(r, fmt);
    var a2 := a1 + [Item(Heading, HeadingText(fmt, ExperienceSection))];
    var a3 := a2 + ExperienceItems(fmt, r.experience);
    var a4 := a3 + [Item(Heading, HeadingText(fmt, EducationSection))];
    var a5 := a4 + EducationItems(fmt, r.education);
    var a6 := a5 + [Item(Heading, HeadingText(fmt, SkillsSection)), Item(Body, Join(", ", r.enhancedSkills))];
    assert MainSections(r, fmt) == a6;

    OpeningAgrees(r, fmt);
    HeadingAgrees(fmt, ExperienceSection);
    NormaliseAppend(a1, [Item(Heading, HeadingText(fmt, ExperienceSection))]);
    ExperienceItemsAgree(r.experience);
    NormaliseAppend(a2, ExperienceItems(fmt, r.experience));
    HeadingAgrees(fmt, EducationSection);
    NormaliseAppend(a3, [Item(Heading, HeadingText(fmt, EducationSection))]);
    EducationItemsAgree(r.education);
    NormaliseAppend(a4, EducationItems(fmt, r.education));
    SkillsAgree(fmt, r.enhancedSkills);
    NormaliseAppend(a5, [Item(Heading, HeadingText(fmt, SkillsSection)), Item(Body, Join(", ", r.enhancedSkills))]);
    ProjectsSectionAgrees(fmt, r.projects);
    NormaliseAppend(a6, ProjectsSectionItems(fmt, r.projects));
  }

  /** Both formats emit the same content in the same order: once headings
      are compared without case and DOCX's line breaks after runs are
      dropped, the DOCX items are the PDF items, which that comparison leaves
      as they are. */
  lemma SameContent(r: Resume)
    ensures NormaliseAll(Layout(r, Docx)) == Layout(r, Pdf)
    ensures NormaliseAll(Layout(r, Pdf)) == Layout(r, Pdf)
  {
    LayoutAgrees(r, Docx);
    LayoutAgrees(r, Pdf);
  }

  // ------------------------------------------------ section order

  /** The heading texts among `items`, in order. */
  function Headings(items: seq<Item>): seq<string> {
    if items == [] then []
    else Headings(items[..|items| - 1])
         + (if items[|items| - 1].style == Heading then [items[|items| - 1].text] else [])
  }

  lemma {:induction false} HeadingsAppend(a: seq<Item>, b: seq<Item>)
    ensures Headings(a + b) == Headings(a) + Headings(b)
    decreases |b|
  {
    if b == [] {
      assert a + b == a;
    } else {
      var init := b[..|b| - 1];
      assert (a + b)[..|a + b| - 1] == a + init;
      assert (a + b)[|a + b| - 1] == b[|b| - 1];
      HeadingsAppend(a, init);
    }
  }

  lemma {:induction false} NoHeadings(items: seq<Item>)
    requires forall i :: 0 <= i < |items| ==> IsContent(items[i])
    ensures Headings(items) == []
  {
    if items != [] {
      NoHeadings(items[..|items| - 1]);
    }
  }

  lemma HeadingsOfOne(it: Item)
    ensures Headings([it]) == if it.style == Heading then [it.text] else []
  {
    assert [it][..0] == [];
  }

  lemma HeadingsOfTwo(x: Item, y: Item)
    ensures Headings([x, y]) == Headings([x]) + Headings([y])
  {
    HeadingsAppend([x], [y]);
    assert [x] + [y] == [x, y];
  }

  lemma OpeningHeadings(r: Resume, fmt: Format)
    ensures Headings(Opening(r, fmt)) == [HeadingText(fmt, SummarySection)]
  {
    var t, c := Item(Title, r.name), Item(Body, Contact(r.email, r.phone));
    var h, b := Item(Heading, HeadingText(fmt, SummarySection)), Item(Body, r.summary);
    HeadingsOfTwo(t, c);
    HeadingsOfTwo(h, b);
    HeadingsOfOne(t);
    HeadingsOfOne(c);
    HeadingsOfOne(h);
    HeadingsOfOne(b);
    HeadingsAppend([t, c], [h, b]);
    assert [t, c] + [h, b] == Opening(r, fmt);
  }

  lemma ProjectsSectionHeadings(fmt: Format, lines: seq<string>)
    ensures Headings(ProjectsSectionItems(fmt, lines))
            == if lines != [] then [HeadingText(fmt, ProjectsSection)] else []
  {
    if lines != [] {
      HeadingsOfOne(Item(Heading, HeadingText(fmt, ProjectsSection)));
      NoHeadings(ProjectItems(fmt, lines));
      HeadingsAppend([Item(Heading, HeadingText(fmt, ProjectsSection))], ProjectItems(fmt, lines));
    }
  }

  /** The headings of the main sections, whatever their texts. */
  lemma {:induction false} MainHeadings(a1: seq<Item>, sum: string, x: string, e: seq<Item>,
                                        u: string, d: seq<Item>, k: string, skills: string)
    requires Headings(a1) == [sum]
    requires forall i :: 0 <= i < |e| ==> IsContent(e[i])
    requires forall i :: 0 <= i < |d| ==> IsContent(d[i])
    ensures Headings(a1 + [Item(Heading, x)] + e + [Item(Heading, u)] + d
                     + [Item(Heading, k), Item(Body, skills)]) == [sum, x, u, k]
  {
    var a2 := a1 + [Item(Heading, x)];
    var a3 := a2 + e;
    var a4 := a3 + [Item(Heading, u)];
    var a5 := a4 + d;
    HeadingsOfOne(Item(Heading, x));
    HeadingsOfOne(Item(Heading, u));
    HeadingsOfTwo(Item(Heading, k), Item(Body, skills));
    HeadingsOfOne(Item(Heading, k));
    HeadingsOfOne(Item(Body, skills));
    NoHeadings(e);
    NoHeadings(d);
    HeadingsAppend(a1, [Item(Heading, x)]);
    HeadingsAppend(a2, e);
    assert Headings(a3) == [sum, x];
    HeadingsAppend(a3, [Item(Heading, u)]);
    HeadingsAppend(a4, d);
    assert Headings(a5) == [sum, x, u];
    HeadingsAppend(a5, [Item(Heading, k), Item(Body, skills)]);
  }

  lemma MainSectionsHeadings(r: Resume, fmt: Format)
    ensures Headings(MainSections(r, fmt))
            == [HeadingText(fmt, SummarySection), HeadingText(fmt, ExperienceSection),
                HeadingText(fmt, EducationSection), HeadingText(fmt, SkillsSection)]
  {
    OpeningHeadings(r, fmt);
    MainHeadings(Opening(r, fmt), HeadingText(fmt, SummarySection),
                 HeadingText(fmt, ExperienceSection), ExperienceItems(fmt, r.experience),
                 HeadingText(fmt, EducationSection), EducationItems(fmt, r.education),
                 HeadingText(fmt, SkillsSection), Join(", ", r.enhancedSkills));
  }

  /** The document's sections always come in this order: summary, work
      experience, education, skills, then projects, and the projects
      heading appears exactly when there is at least one project line. */
  lemma SectionOrder(r: Resume, fmt: Format)
    ensures Headings(Layout(r, fmt))
            == [HeadingText(fmt, SummarySection), HeadingText(fmt, ExperienceSection),
                HeadingText(fmt, EducationSection), HeadingText(fmt, SkillsSection)]
               + (if r.projects != [] then [HeadingText(fmt, ProjectsSection)] else [])
  {
    MainSectionsHeadings(r, fmt);
    ProjectsSectionHeadings(fmt, r.projects);
    HeadingsAppend(MainSections(r, fmt), ProjectsSectionItems(fmt, r.projects));
  }

  // ------------------------------------------------ one entry per parsed line

  /** The entries of a list of experiences, one after the other. */
  function ExperienceEntries(fmt: Format, es: seq<Experience>): seq<Item> {
    if es == [] then []
    else ExperienceEntries(fmt, es[..|es| - 1]) + ExperienceEntry(fmt, es[|es| - 1])
  }

  /** The entries of a list of educations, one after the other. */
  function EducationEntries(fmt: Format, es: seq<Education>): seq<Item> {
    if es == [] then []
    else EducationEntries(fmt, es[..|es| - 1]) + EducationEntry(fmt, es[|es| - 1])
  }

  lemma ExperienceEntriesStep(fmt: Format, es: seq<Experience>, e: Experience)
    ensures ExperienceEntries(fmt, es + [e]) == ExperienceEntries(fmt, es) + ExperienceEntry(fmt, e)
  {
    assert (es + [e])[..|es|] == es;
  }

  lemma EducationEntriesStep(fmt: Format, es: seq<Education>, e: Education)
    ensures EducationEntries(fmt, es + [e]) == EducationEntries(fmt, es) + EducationEntry(fmt, e)
  {
    assert (es + [e])[..|es|] == es;
  }

  /** The experience section lists exactly the entries of the parsed
      experiences, in line order. */
  lemma {:induction false} ExperienceItemsAreEntries(fmt: Format, lines: seq<string>)
    ensures ExperienceItems(fmt, lines) == ExperienceEntries(fmt, Experiences(lines))
  {
    if lines == [] {
      NoLinesNoEntries();
    } else {
      var init, last := lines[..|lines| - 1], lines[|lines| - 1];
      assert lines == init + [last];
      ExperienceItemsAreEntries(fmt, init);
      ExperienceItemsOfLine(fmt, init, last);
      ExperienceEntriesOfLine(fmt, init, last);
    }
  }

  lemma ExperienceItemsOfLine(fmt: Format, init: seq<string>, last: string)
    ensures ExperienceItems(fmt, init + [last]) == ExperienceItems(fmt, init) + ExperienceLine(fmt, last)
  {
    assert (init + [last])[..|init|] == init;
  }

  /** One more line adds that line's items to the entries. */
  lemma ExperienceEntriesOfLine(fmt: Format, init: seq<string>, last: string)
    ensures ExperienceEntries(fmt, Experiences(init + [last])) == ExperienceEntries(fmt, Experiences(init)) + ExperienceLine(fmt, last)
  {
    ExperiencesStep(init, last);
    ExperienceEntriesOfOption(fmt, Experiences(init), ParseExperience(last));
  }

  lemma ExperienceEntriesOfOption(fmt: Format, es: seq<Experience>, o: Option<Experience>)
    ensures ExperienceEntries(fmt, es + (if o.Some? then [o.value] else [])) ==
            ExperienceEntries(fmt, es) + (match o case Some(e) => ExperienceEntry(fmt, e) case None => [])
  {
    match o
    case Some(e) =>
      ExperienceEntriesStep(fmt, es, e);
    case None =>
      assert es + [] == es;
  }

  /** The education section lists exactly the entries of the parsed
      educations, in line order. */
  lemma {:induction false} EducationItemsAreEntries(fmt: Format, lines: seq<string>)
    ensures EducationItems(fmt, lines) == EducationEntries(fmt, Educations(lines))
  {
    if lines == [] {
      NoLinesNoEntries();
    } else {
      var init, last := lines[..|lines| - 1], lines[|lines| - 1];
      assert lines == init + [last];
      EducationItemsAreEntries(fmt, init);
      EducationItemsOfLine(fmt, init, last);
      EducationEntriesOfLine(fmt, init, last);
    }
  }

  lemma EducationItemsOfLine(fmt: Format, init: seq<string>, last: string)
    ensures EducationItems(fmt, init + [last]) == EducationItems(fmt, init) + EducationLine(fmt, last)
  {
    assert (init + [last])[..|init|] == init;
  }

  /** One more line adds that line's items to the entries. */
  lemma EducationEntriesOfLine(fmt: Format, init: seq<string>, last: string)
    ensures EducationEntries(fmt, Educations(init + [last])) == EducationEntries(fmt, Educations(init)) + EducationLine(fmt, last)
  {
    EducationsStep(init, last);
    EducationEntriesOfOption(fmt, Educations(init), ParseEducation(last));
  }

  lemma EducationEntriesOfOption(fmt: Format, es: seq<Education>, o: Option<Education>)
    ensures EducationEntries(fmt, es + (if o.Some? then [o.value] else [])) ==
            EducationEntries(fmt, es) + (match o case Some(e) => EducationEntry(fmt, e) case None => [])
  {
    match o
    case Some(e) =>
      EducationEntriesStep(fmt, es, e);
    case None =>
      assert es + [] == es;
  }

  lemma {:induction false} ExperienceEntriesCount(fmt: Format, es: seq<Experience>)
    ensures |ExperienceEntries(fmt, es)| == 3 * |es|
  {
    if es != [] {
      ExperienceEntriesCount(fmt, es[..|es| - 1]);
    }
  }

  lemma {:induction false} EducationEntriesCount(fmt: Format, es: seq<Education>)
    ensures |EducationEntries(fmt, es)| == 2 * |es|
  {
    if es != [] {
      EducationEntriesCount(fmt, es[..|es| - 1]);
    }
  }

  /** Each experience entry takes three items, so the section is as long as
      three times the number of lines that parse. */
  lemma ExperienceItemsCount(fmt: Format, lines: seq<string>)
    ensures |ExperienceItems(fmt, lines)| == 3 * |Experiences(lines)|
  {
    ExperienceItemsAreEntries(fmt, lines);
    ExperienceEntriesCount(fmt, Experiences(lines));
  }

  /** Each education entry takes two items. */
  lemma EducationItemsCount(fmt: Format, lines: seq<string>)
    ensures |EducationItems(fmt, lines)| == 2 * |Educations(lines)|
  {
    EducationItemsAreEntries(fmt, lines);
    EducationEntriesCount(fmt, Educations(lines));
  }

  /** Each project line takes two items, none being dropped. */
  lemma {:induction false} ProjectItemsCount(fmt: Format, lines: seq<string>)
    ensures |ProjectItems(fmt, lines)| == 2 * |lines|
  {
    if lines != [] {
      ProjectItemsCount(fmt, lines[..|lines| - 1]);
    }
  }
}
