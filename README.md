# Resume builder bot — a Dafny model

`resume_bot.py` is a Telegram bot that builds a résumé through a short
dialogue. `/build` starts a form that asks, in this order, for:

- name, e-mail and phone;
- education, experience, skills and projects;
- a template, chosen with a button;
- an output format, chosen with a button.

The bot then does three things:

1. It derives a one-sentence summary and a skill list padded from a fallback list.
2. It renders the résumé as a PDF or a DOCX file.
3. It lists up to five job titles found by keyword lookup over the skills.

The project models this core in five modules, plus a shared `Opt` module (`opt.dfy`) that holds the Option datatype:

- **`PyStr`** (`pystr.dfy`): the Python string operations the bot relies on.
  - `str.split(sep, maxsplit)`, including the rule that a negative maxsplit means "no limit".
  - `strip()` over the `isspace` set.
  - ASCII `lower()`, `replace`, `join`, `startswith`, and `in` on strings.
  - `Upper`, an ASCII upper-casing. The bot never calls `upper()`: the PDF writes its headings as upper-case literals. The model uses `Upper` only to compare a DOCX heading with its PDF partner.
- **`FieldParser`** (`field_parser.dfy`): how answers are stored and how entry lines are parsed at render time.
  - Answers are stored as `\n`-split line lists and a comma-split, trimmed skill list.
  - The `skip` rule applies to projects.
  - Experience lines are split on at most three commas, education lines on every comma, project lines on one comma.
- **`Derivation`** (`derivation.dfy`): the derived values.
  - The summary sentence.
  - `enhance_skills`, as a specification function `Enhanced` and a loop method `EnhanceSkills`.
  - `get_job_recommendations`, as a set `Matched` and a method `JobRecommendations` that nests the source's loops. Its output order is left unspecified.
- **`Renderer`** (`renderer.dfy`): both generators, as methods that append styled items (title, heading, bold, italic, body) to a sequence.
  - The font preset, the file name rule and the format dispatch are modelled too.
  - The main theorem: the DOCX and PDF item sequences are the same once headings are upper-cased and DOCX's added line breaks are dropped. Both also put the sections in the same order.
- **`Session`** (`session.dfy`): the form as a state machine.
  - A pure transition function `Next`.
  - A `Conversation` class with `state` and `data` fields, whose `Step` method handles one update.
  - The final step builds the résumé, renders it and clears the conversation whether or not rendering failed.

## Model

| member | source | states |
|---|---|---|
| PyStr.Split | resume_bot.py:359 | Python `split` with maxsplit: at least one piece, and at most maxsplit+1 pieces when maxsplit is not negative |
| PyStr.SplitPieces | resume_bot.py:359 | no piece except the unsplit remainder holds the separator; with no maxsplit the remainder holds none either |
| PyStr.SplitCount | resume_bot.py:378 | the number of pieces is one more than the number of separators, or one more than maxsplit when that is smaller |
| PyStr.SplitJoin | resume_bot.py:359 | joining the pieces with the separator gives back the original string |
| PyStr.SplitUnique | resume_bot.py:405 | a decomposition into pieces whose non-final members are separator-free is exactly what split returns |
| PyStr.SplitAllUnique | resume_bot.py:378 | with no limit, a decomposition into separator-free pieces is exactly what split returns |
| PyStr.SplitNoSplits | resume_bot.py:405 | maxsplit 0 returns the whole string as one piece; the bot never passes 0, and this is the one-piece case `SplitUnique` rests on |
| PyStr.SplitBeyondCount | resume_bot.py:359 | a limit at or above the number of separators behaves as no limit |
| PyStr.CountZero | resume_bot.py:378 | a character occurs zero times exactly when it is absent |
| PyStr.StripKeeps | resume_bot.py:139 | `strip()` introduces no character: a character absent from the input is absent from the result |
| PyStr.LStripSpec | resume_bot.py:139 | the result is a suffix, everything removed is whitespace, and it starts with a non-space |
| PyStr.RStripSpec | resume_bot.py:139 | the result is a prefix, everything removed is whitespace, and it ends with a non-space |
| PyStr.StripStripped | resume_bot.py:139 | stripping yields a stripped string |
| PyStr.StripIsInfix | resume_bot.py:139 | the stripped string occurs inside the original |
| PyStr.Replace | resume_bot.py:319 | `replace` keeps the length, puts the new character at every position that held the old one, and leaves every other character in place |
| PyStr.LowerSpec | resume_bot.py:152 | ASCII `lower()` leaves no capital letter, turns each capital into its small letter and keeps every other character |
| PyStr.UpperSpec | resume_bot.py:348 | the case normalisation that relates a DOCX heading (resume_bot.py:435) to its PDF partner: it leaves no small letter, turns each small letter into its capital and keeps every other character |
| PyStr.ContainsIff | resume_bot.py:306 | substring `in` holds exactly when the substring occurs at some index |
| PyStr.JoinContains | resume_bot.py:259 | every joined element occurs in the joined string |
| FieldParser.LineCount | resume_bot.py:117 | one line more than the line breaks, no stored line holds a line break, and re-joining gives back the answer |
| FieldParser.SkillsClean | resume_bot.py:139 | every skill is comma-free and stripped |
| FieldParser.SkillCount | resume_bot.py:139 | exactly one skill more than there are commas |
| FieldParser.ParseSkillsOfPieces | resume_bot.py:139 | the i-th skill is the i-th comma-separated piece, stripped |
| FieldParser.EmptySkillKept | resume_bot.py:139 | an empty piece between two commas is kept as an empty skill |
| FieldParser.ProjectsAnswer | resume_bot.py:152-155 | the answer gives no projects exactly when its lower-case form is `skip`, and otherwise its lines |
| FieldParser.SkipIsExact | resume_bot.py:152 | `SKIP` and `Skip` are skips, while ` skip` (not trimmed) is not |
| FieldParser.ExperienceCommaFree | resume_bot.py:359-362 | position and company of a parsed experience hold no comma |
| FieldParser.ExperienceNeedsThreeFields | resume_bot.py:359-360 | an experience line is kept exactly when it has at least two commas |
| FieldParser.ExperienceFields | resume_bot.py:359-362 | three comma-free fields and any description (which may hold commas) parse to their stripped values |
| FieldParser.ExperienceWithoutDescription | resume_bot.py:362 | with exactly three fields the description is empty |
| FieldParser.ExperienceStripped | resume_bot.py:361-362 | every parsed experience field is stripped |
| FieldParser.EducationCommaFree | resume_bot.py:378-381 | the fields of a parsed education hold no comma |
| FieldParser.EducationNeedsTwoFields | resume_bot.py:378-379 | an education line is kept exactly when it holds a comma |
| FieldParser.EducationFields | resume_bot.py:378-381 | degree, institution and year are the first three pieces stripped (year empty with two pieces), and later pieces are ignored |
| FieldParser.EducationStripped | resume_bot.py:380-381 | every parsed education field is stripped |
| FieldParser.ProjectSinglePiece | resume_bot.py:405 | a project line that splits into one piece holds no comma and is that piece |
| FieldParser.ProjectNameHasNoComma | resume_bot.py:405-407 | a project name never holds a comma |
| FieldParser.ProjectWithoutComma | resume_bot.py:406-408 | a comma-free project line is its own name, with an empty description |
| FieldParser.ProjectFields | resume_bot.py:405-408 | a name and the rest after the first comma, both stripped |
| FieldParser.ProjectStripped | resume_bot.py:407-408 | name and description are stripped |
| FieldParser.Experiences | resume_bot.py:358-360 | every parsed experience comes from some line, and none is dropped when every line parses |
| FieldParser.ExperiencesStep | resume_bot.py:358-360 | a further line appends its experience when it parses and nothing otherwise, so the entries follow the line order |
| FieldParser.Educations | resume_bot.py:377-379 | every parsed education comes from some line, and none is dropped when every line parses |
| FieldParser.EducationsStep | resume_bot.py:377-379 | a further line appends its education when it parses and nothing otherwise, so the entries follow the line order |
| FieldParser.Projects | resume_bot.py:404-406 | one project per line, in order; no line is dropped |
| FieldParser.EducationExample | resume_bot.py:377-381 | a well-formed education line followed by a comma-free line yields exactly one entry |
| Derivation.Summary | resume_bot.py:255-259 | the sentence starts with the name and the fixed lead, and ends with the fixed tail |
| Derivation.SummaryMentions | resume_bot.py:257-259 | each of the first three skills occurs in the summary |
| Derivation.Absent | resume_bot.py:272 | exactly the fallback entries not already present (their order is stated by `AbsentStep`) |
| Derivation.Take | resume_bot.py:270-273 | the first n entries (all of them when there are fewer) |
| Derivation.FallbackDistinct | resume_bot.py:264-265 | the eight fallback skills are distinct |
| Derivation.AbsentDistinct | resume_bot.py:271-273 | absent fallback entries are distinct |
| Derivation.EnhancedShape | resume_bot.py:262-275 | the input is an unchanged prefix; the length is unchanged from 8 up and otherwise min(8, input + absent fallbacks); every added skill is a fallback skill not in the input, and added skills are distinct |
| Derivation.AbsentNone | resume_bot.py:272 | nothing is added when every fallback skill is present |
| Derivation.EnhancedIdempotent | resume_bot.py:262-275 | padding an already padded list changes nothing |
| Derivation.AbsentStep | resume_bot.py:271-273 | looking at one more fallback entry extends the absent list by that entry exactly when it is absent |
| Derivation.PadStep | resume_bot.py:271-273 | one iteration of the padding loop keeps "input followed by the first absent fallbacks" |
| Derivation.EnhanceSkills | resume_bot.py:262-275 | the loop computes `Enhanced` |
| Derivation.TitlesForIff | resume_bot.py:305-307 | a title is collected for one skill exactly when some table key is a substring of the lower-cased skill and lists it |
| Derivation.MatchedIff | resume_bot.py:302-307 | a title is collected exactly when some skill and some key match and the key lists it |
| Derivation.MatchedEmptyIff | resume_bot.py:310 | nothing is collected exactly when no key is a substring of any lower-cased skill |
| Derivation.NeverMatchedSoftwareDeveloper | resume_bot.py:280-295 | "Software Developer" appears only in the default list |
| Derivation.CollectTitles | resume_bot.py:302-307 | the nested loops collect exactly the matched titles |
| Derivation.ListOf | resume_bot.py:314 | the list holds exactly the set's elements, without repeats |
| Derivation.JobRecommendations | resume_bot.py:278-314 | the default list exactly when no key matches; otherwise exactly the matched titles, each once |
| Derivation.JavaScriptAlsoMatchesJava | resume_bot.py:282-283 | "JavaScript" matches both the `javascript` and the `java` key |
| Derivation.PythonAndSqlExample | resume_bot.py:281-284 | Python and SQL give "Python Developer" and "Database Administrator" |
| Renderer.FontFor | resume_bot.py:325-336 | Helvetica exactly for professional and creative, Times exactly for academic, and Courier otherwise |
| Renderer.Filename | resume_bot.py:319 | `resume_`, then each character of the name with a space made `_` and a capital lower-cased, then the extension; no space survives |
| Renderer.FilenameExample | resume_bot.py:319 | "John Doe" becomes `resume_john_doe.pdf` |
| Renderer.ExperienceEntry | resume_bot.py:364-369 | an experience entry carries no heading |
| Renderer.EducationEntry | resume_bot.py:383-386 | an education entry carries no heading |
| Renderer.ProjectEntry | resume_bot.py:410-413 | a project entry carries no heading |
| Renderer.ExperienceLine | resume_bot.py:358-370 | a line's items carry no heading |
| Renderer.EducationLine | resume_bot.py:377-387 | a line's items carry no heading |
| Renderer.ExperienceItems | resume_bot.py:358-370 | the experience items carry no heading |
| Renderer.EducationItems | resume_bot.py:377-387 | the education items carry no heading |
| Renderer.ProjectItems | resume_bot.py:404-414 | the project items carry no heading |
| Renderer.WriteExperience | resume_bot.py:441-450 | the loop appends exactly the items of every parsable line, in order |
| Renderer.WriteEducation | resume_bot.py:455-463 | the loop appends exactly the items of every parsable line, in order |
| Renderer.WriteProjects | resume_bot.py:474-482 | the loop appends the items of every line, in order |
| Renderer.WriteProjectsSection | resume_bot.py:471-482 | the projects heading and entries are written exactly when there is at least one project line |
| Renderer.RenderPdf | resume_bot.py:317-418 | the PDF file is named by the rule and uses the template's font; its items are the common layout with PDF headings |
| Renderer.RenderDocx | resume_bot.py:421-486 | the DOCX file is named by the rule; its items are the common layout with DOCX headings and line breaks |
| Renderer.Rendered | resume_bot.py:218-221 | the format `pdf` gives a PDF, any other format a DOCX, and the extension matches |
| Renderer.Render | resume_bot.py:218-221 | the dispatch calls the matching generator |
| Renderer.NormaliseAll | resume_bot.py:435 | the normalisation `SameContent` uses to compare the DOCX items with the PDF items (for example the heading at resume_bot.py:435 against resume_bot.py:348) keeps the number of items |
| Renderer.NormaliseAppend | resume_bot.py:421-486 | normalising distributes over concatenation |
| Renderer.HeadingsAgree | resume_bot.py:348 | each DOCX heading upper-cased is the PDF heading (for example `Work Experience` and `WORK EXPERIENCE`, resume_bot.py:439) |
| Renderer.UpperByChars | resume_bot.py:355 | upper-casing matches character by character |
| Renderer.DropAddedBreak | resume_bot.py:448 | dropping the added line break gives back the text |
| Renderer.ExperienceEntryAgrees | resume_bot.py:448-450 | a DOCX experience entry normalises to the PDF entry |
| Renderer.EducationEntryAgrees | resume_bot.py:462-463 | a DOCX education entry normalises to the PDF entry |
| Renderer.ProjectEntryAgrees | resume_bot.py:481-482 | a DOCX project entry normalises to the PDF entry |
| Renderer.ExperienceItemsAgree | resume_bot.py:441-450 | all DOCX experience items normalise to the PDF ones |
| Renderer.EducationItemsAgree | resume_bot.py:455-463 | all DOCX education items normalise to the PDF ones |
| Renderer.ProjectItemsAgree | resume_bot.py:474-482 | all DOCX project items normalise to the PDF ones |
| Renderer.OpeningAgrees | resume_bot.py:428-436 | name, contact line and summary agree across formats |
| Renderer.HeadingAgrees | resume_bot.py:439 | a section heading agrees across formats |
| Renderer.SkillsAgree | resume_bot.py:466-468 | the skills section agrees across formats |
| Renderer.ProjectsSectionAgrees | resume_bot.py:471-472 | the projects section agrees across formats |
| Renderer.LayoutAgrees | resume_bot.py:421-486 | a whole layout normalises to the PDF layout |
| Renderer.SameContent | resume_bot.py:317-486 | DOCX and PDF emit the same content in the same order, up to heading case and added line breaks |
| Renderer.HeadingsAppend | resume_bot.py:317-418 | the headings of a concatenation are the headings of its parts |
| Renderer.NoHeadings | resume_bot.py:358-370 | content items contribute no heading |
| Renderer.HeadingsOfOne | resume_bot.py:348 | a single item contributes its text exactly when it is a heading |
| Renderer.HeadingsOfTwo | resume_bot.py:390-395 | two items contribute their headings in order |
| Renderer.OpeningHeadings | resume_bot.py:339-351 | the opening holds only the summary heading |
| Renderer.ProjectsSectionHeadings | resume_bot.py:399-401 | the projects heading appears exactly when there are project lines |
| Renderer.MainHeadings | resume_bot.py:346-396 | headings interleaved with content yield just the headings, in order |
| Renderer.MainSectionsHeadings | resume_bot.py:346-396 | summary, experience, education and skills headings, in this order, always |
| Renderer.SectionOrder | resume_bot.py:346-414 | summary, experience, education, skills, then projects only when there are project lines |
| Renderer.ExperienceItemsAreEntries | resume_bot.py:358-369 | the experience section is exactly the entries of the parsed experiences, in line order |
| Renderer.ExperienceItemsCount | resume_bot.py:364-369 | three items per parsed experience |
| Renderer.EducationItemsAreEntries | resume_bot.py:377-386 | the education section is exactly the entries of the parsed educations, in line order |
| Renderer.EducationItemsCount | resume_bot.py:383-386 | two items per parsed education |
| Renderer.ProjectItemsCount | resume_bot.py:410-413 | two items per project line |
| Session.CallbackValue | resume_bot.py:176 | the button value holds no colon |
| Session.CallbackValueOfRest | resume_bot.py:176 | whatever follows the second colon, the value is the text between the first colon and the second one (or the end) |
| Session.CallbackValueOf | resume_bot.py:197 | `prefix:value` yields the value |
| Session.ChoiceHasColon | resume_bot.py:173 | a template or format button's data holds a colon |
| Session.ResumeOf | resume_bot.py:207-215 | the generators get the generated summary and the padded skills |
| Session.Shown | resume_bot.py:236 | at most the first five titles, as a prefix |
| Session.NextKeepsFilled | resume_bot.py:83-199 | every update keeps the answers each state relies on, and nothing is stored while idle |
| Session.BuildRestarts | resume_bot.py:83-86 | `/build` goes to the name question from any state and keeps the stored answers |
| Session.StartChangesNothing | resume_bot.py:75-80 | `/start` changes neither state nor answers |
| Session.TextAdvances | resume_bot.py:89-170 | a text answer advances exactly one question in the text states, and it is ignored in every other state |
| Session.CallbackGuards | resume_bot.py:173 | a button moves the state exactly for a template button in the template state or a format button in the format state |
| Session.OnlyFormatChoiceFinishes | resume_bot.py:194-248 | the form is left only by a format button, and that clears all answers |
| Session.FormatStateIsComplete | resume_bot.py:207-234 | in the format state every answer the generators read is present |
| Session.FullDialogue | resume_bot.py:83-178 | `/build`, seven answers and a template button store every answer and reach the format question |
| Session.RunStep | resume_bot.py:63-72 | a run of updates is its first step followed by the rest |
| Session.RunAppend | resume_bot.py:63-72 | running two batches of updates is running their concatenation |
| Session.Conversation.constructor | resume_bot.py:47 | a new conversation has no state and no answers |
| Session.Conversation.Step | resume_bot.py:83-252 | the state and answers move as `Next` says. A format button in the format state fails exactly when rendering fails; otherwise it delivers the rendered résumé and at most five recommended titles. Every other update gets the reply for its state |

## Left out

- Messaging: the greetings, prompts, "processing" and closing texts and the inline keyboards are not modelled. A reply is reduced to the question asked next, the file and titles, a failure, or silence.
- Command recognition: the model receives the `/start` and `/build` commands already classified. The transport's command filter (bot mentions, arguments) is not part of this model.
- Session.Conversation.Step: the exception path is the `fails` parameter. Any exception inside the try block, raised by the generator or by file delivery, is taken as "no file, no recommendations". Which library call raised is not modelled.
- Rendering internals: font sizes, cell widths, wrapping and spacing are left out. Writing, sending and deleting the file are left out too (`pdf.output`, `doc.save`, `FSInputFile`, `os.remove`).
- The format answer is not kept in the stored answers. It is cleared in the same handler that reads it, so `Step` passes it straight to the résumé record.
- Process bootstrap: `.env` loading, bot creation, `sys.exit` and polling in `main`.
- Concurrency: the per-user memory storage is not modelled; one conversation is modelled at a time.
- Non-text messages, where `message.text` is None, are not modelled.
- Case mapping: `lower()` is ASCII only, and so is the heading normalisation `Upper`. Python's Unicode case mapping is not part of this model.
- Derivation.JobRecommendations: the order of `list(set)` is unspecified, so the contract pins down only the elements and their distinctness.
- Session.Conversation.Step: which five titles are shown is left open in the same way. The contract says the reply is the first five of some list meeting that contract.
- Derivation.Summary: the contract states the fixed lead and tail plus the first three skills appearing (`SummaryMentions`), not the exact middle text.
- DOCX and templates: the DOCX generator reads the template but never uses it, so a DOCX document carries no font. The model follows the code here.
- Empty inputs: empty skill pieces and empty project lines are kept as entries, as the code does.
