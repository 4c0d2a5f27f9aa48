# projet-appreciations — a Dafny model of the report-card pipeline

projet-appreciations reads a French school report card (a PDF page of text), extracts the student's
name, overall average, global comment and one record per subject, and asks a completion service to
write a global appreciation with justifications. This project models the logic of that pipeline in
Dafny and proves properties of it:

- `parser.dfy` (module `Parser`) — `analyser_texte_bulletin` of parser.py. Each regular expression is
  a hand-written scanner: an `…At` function says what `re.match` does at one position, `Scan.Leftmost`
  is `re.search`, and `re.sub` is a left-to-right recursive rewrite. Two parts are imperative, as in the
  source:
  - the segmentation loop (`SegmentLines`, with `ReadLine` as its body);
  - the in-place clean-up loop (`CleanSubjects`).

  Both are proved equal to specification functions (`Segment`, `CleanAll`), and the properties are
  proved about those functions.
- `roster.dfy` (module `Roster`) — the roster comprehensions shared by main.py and app.py.
- `tasks.dfy` (module `Tasks`) — `traiter_un_bulletin`: validation order, prompt list, reply split.
- `mainroutes.dfy` (module `MainRoutes`) — `lancer_analyse`, `page_suivi` and `statut_jobs`. The Redis
  queue is the class `JobQueue`; the job states kept by the queue library are an abstract map.
- `app.dfy` (module `App`) — the pure fragments of the single-process Flask variant: DB-URL rule,
  rosters, submission validation, prompt, reply split, analysed-name set.
- `config.dfy` (module `Config`) — the `Config` class body.
- `text.dfy`, `scan.dfy`, `wrappers.dfy` — Python string operations (`strip`, `split`, `join`,
  `replace`, `" ".join(s.split())`), regex scanning helpers, and `Option`/`Result`.

Alphabet assumption: text is NFC, and the regex classes are read over ASCII. `\s` is space, tab,
`\n`, `\r`, `\v`, `\f` and the separators U+001C to U+001F (all the ASCII characters Python's
`str.isspace()` accepts); `\d` is `0-9`; `[A-Z]` and `[a-z]` are the ASCII letters. Python's `\s`
and `\d` also match some non-ASCII characters, and those are not modelled.

Environment variables, the extracted page text, the uploaded bytes and the completion service's reply
are parameters. The completion service is a function parameter `service(systemPrompt, userPrompt)`.

The model follows the code where it departs from the system's intended design:
- subjects are found by the shape of header lines, not from a caller-supplied list of labels;
- the parsed name is never compared with the expected student name;
- a finished job's result is looked up in the `Analyse` table by job id, not in a dedicated result store.

## Model

| member | source | states |
|---|---|---|
| Parser.NameEndAtIsRegex | parser.py:16 | the name scanner at a start position finds exactly the ends of group 1 of `([A-Z\s]+[A-Z][a-z]+)\nNé le`, in both directions |
| Parser.NameIsFirstMatch | parser.py:16-18 | when the leftmost match of the name pattern starts at s with group 1 ending at e, `nom_eleve` is that group stripped |
| Parser.TownNameAt | parser.py:20 | a fallback match at s is "Échirolles", whitespace, then a group ending at the first `\nNé le` after its start (lazy `.*?`); the greedy `\s*` gives whitespace back to the group only when no anchor follows, and no match means no anchor after the label |
| Parser.NameFallsBackToTown | parser.py:19-21 | when the name pattern matches nowhere, the first fallback match gives the name, stripped |
| Parser.OverallAverageAt | parser.py:23 | a match at s is the label, at least one whitespace character, then a maximal non-empty run of digits, commas and dots |
| Parser.ExtractOverallAverage | parser.py:23-25 | `moyenne_generale` is set exactly when the pattern matches somewhere; it is non-empty and made of digits and dots only (commas replaced) |
| Parser.OverallAverageIsFirstMatch | parser.py:23-25 | when the leftmost match of the average pattern has group 1 at t[a..b], `moyenne_generale` is that group with every comma turned into a dot |
| Parser.ColonAt | parser.py:27 | `\s*:` at a position ends right after the colon that follows the whitespace run, and fails exactly when no colon follows it |
| Parser.GlobalCommentAt | parser.py:27 | a match at s is the label, whitespace, the colon and whitespace, then a group of at least one character ending at the first `\nMentions` after its first character; the whitespace after the colon is given back only when no anchor follows; no match means no anchor after the colon |
| Parser.ExtractGlobalComment | parser.py:27-30 | `appreciation_globale` is set exactly when the pattern matches somewhere; it has no newline, no leading or trailing whitespace and no doubled space |
| Parser.GlobalCommentIsFirstMatch | parser.py:27-30 | when the leftmost match of the global-comment pattern has group 1 at t[p..q], the comment is that group with line breaks turned into spaces, stripped and collapsed |
| Scan.SpacedLazy | parser.py:27 | a greedy `\s*` then a lazy group of a minimum length then an anchor: the group ends at the first anchor after its minimum end, and the whitespace is given back only when no anchor is left |
| Parser.TableAt | parser.py:36 | the table group starts right after `Appréciations\n` and ends at the first `\nMoyenne générale` after at least one character; no match means no such anchor follows |
| Parser.GradeTokenLen | parser.py:45 | the token `\d+/\d+` or `N.Not` is non-empty and starts with a digit or `N` |
| Parser.GradeTokenLenIsRegex | parser.py:45 | the scanner returns length n exactly when `\d+/\d+` matches as a maximal digit run, a slash and a maximal non-empty digit run ending at n, or n is 5 and the text starts with "N.Not" |
| Parser.NotGradedAtIsPrefix | parser.py:45 | the character test for the `N\.Not` alternative holds exactly when the line continues with "N.Not" |
| Parser.HeaderOf | parser.py:45 | a header match has a group 1 of at least three characters from `A-Z . space &` at the start of the line, followed by the rest of the match |
| Parser.HeaderOfIsLongestMatch | parser.py:45 | the result is a match of the header pattern, and whenever the pattern matches, a match is found whose group 1 is at least as long (greedy backtracking) |
| Parser.SegmentNames | parser.py:41-68 | one subject per header line, named after that line, in order; lines before the first header are dropped |
| Parser.SegmentShape | parser.py:45-64 | every subject cut from the table has a stripped name of `A-Z . space &` characters, the average "N/A" and a comment ending with a space |
| Parser.SegmentIsSubjects | parser.py:41-68 | the subjects of the loop are read forwards: each header line opens a subject named after its group 1, with the average "N/A" and the comment made of the rest of that line stripped plus a space, then each following line stripped plus a space, up to the next header |
| Parser.ReadLine | parser.py:45-64 | one loop iteration updates the saved list and the open subject as the segmentation step function does |
| Parser.SegmentLines | parser.py:41-68 | the loop returns the subjects of the segmentation specification, the last open one included |
| Parser.StripTeachers | parser.py:75 | removing teacher names never lengthens the comment |
| Parser.TeacherLenIsRegex | parser.py:75 | the scanner returns length n exactly when the text starts with "M." or "Mme", a non-empty whitespace run, and a maximal non-empty run of capitals ending at n |
| Parser.StripTeachersKeeps | parser.py:75 | text in which no teacher name starts is copied, and the substitution goes on after it |
| Parser.StripTeachersRemovesFirst | parser.py:75 | the first teacher name is removed and the text before it copied: with no match in a and a match spanning exactly m, a + m + b becomes a followed by the substitution of b |
| Parser.StripTeachersDoesNotRescan | parser.py:75 | the text a removal joins up is not scanned again: "MM. X" followed by "me DUPONT" leaves "Mme DUPONT" |
| Parser.StripTeachersWithoutTitle | parser.py:75 | a comment with no M in it is left unchanged |
| Parser.StripTeachersKeepsPlainText | parser.py:75 | a comment in which no teacher name starts is left unchanged |
| Parser.GradeLen | parser.py:83 | a grade found at the start of a text is a prefix of the form `\d{1,2}[,.]\d{2}` |
| Parser.GradeLenIsGreedy | parser.py:83 | whenever a 4- or 5-character grade prefix exists one is found, and the two-digit form wins when possible |
| Parser.FirstGradeSpec | parser.py:83 | the search returns the leftmost grade, or None exactly when no grade starts anywhere |
| Parser.FirstGradeIsFirst | parser.py:83 | a grade with no grade starting before it is the one the search returns |
| Parser.DropNoiseSpec | parser.py:89 | exactly the longest prefix of digits, whitespace, commas, dots and slashes is removed: the rest is a suffix that starts with none of them |
| Parser.FractionLenIsRegex | parser.py:90 | the scanner returns length n exactly when `\s*\d*/\d+\s*[\d,\s.]*` matches with a maximal whitespace run, a maximal digit run, a slash, a maximal non-empty digit run and a maximal tail of digits, commas, whitespace and dots ending at n |
| Parser.FractionAtSlash | parser.py:90 | a slash followed by a digit always starts a fraction |
| Parser.FractionStartsWithNoise | parser.py:90 | a fraction never starts at a character other than whitespace, a digit or a slash |
| Parser.ReplaceFractionsHead | parser.py:90 | the rewritten text starts with the inserted space, or with the original first character when no fraction starts there |
| Parser.ReplaceFractionsNoSlash | parser.py:90 | text without a slash holds no fraction and comes out of the rewrite unchanged |
| Parser.NoFractionLeft | parser.py:90 | after the rewrite no slash is followed by a digit |
| Parser.CollapseStripNoFraction | parser.py:90-91 | stripping and collapsing whitespace brings no slash next to a digit |
| Parser.CleanComment | parser.py:88-91 | the cleaned comment has no leading or trailing whitespace, no run of spaces and does not start with a digit, comma, dot or slash |
| Parser.CleanCommentNoFraction | parser.py:88-91 | no slash followed by a digit is left in the cleaned comment |
| Parser.CleanOutcomes | parser.py:72-94 | the name is kept; "N.Not" exactly when the teacher-free comment mentions N.Not or "non évalué", with the fixed comment; "Erreur" exactly when it does not and no grade occurs, with the fixed comment; otherwise a `d.dd`/`dd.dd` average and a cleaned comment without fractions |
| Parser.CleanGraded | parser.py:83-91 | when a grade is taken, the average has the `d.dd`/`dd.dd` form, differs from both markers, and the comment is collapsed, does not start with a noise character and holds no fraction |
| Parser.CleanTakesFirstGrade | parser.py:75-91 | the average is the leftmost grade of the teacher-free comment with `,` turned into `.`, and the comment is what follows that grade, cleaned |
| Parser.CleanAll | parser.py:71-94 | one cleaned record per record, in order |
| Parser.CleanSubjects | parser.py:71-94 | the in-place loop leaves every record cleaned, in order |
| Parser.AnalyseSubjects | parser.py:34-99 | without the table region the subject list is empty; otherwise the names are the header names of the table lines, and every average is "N.Not", "Erreur" or `d.dd`/`dd.dd`, never "N/A" |
| Parser.AnalyserTexteBulletin | parser.py:3-99 | the method returns the record of the page specification: name, overall average, global comment and subjects |
| Roster.NonBlank | main.py:65-66 | roster entries are non-empty and stripped, and there are no more of them than pieces |
| Roster.NonBlankMembers | main.py:65-66 | the entries are exactly the non-blank stripped pieces |
| Roster.NonBlankOne | main.py:65-66 | one piece gives its stripped text, or nothing when that is empty |
| Roster.NonBlankAppend | main.py:65-66 | pieces are handled one by one: the entries keep the order and the repetitions of the pieces |
| Roster.PiecesShape | app.py:102-103 | no roster entry is empty, has surrounding whitespace or contains the separator |
| Roster.PiecesOfJoin | main.py:65-66 | writing clean entries one per separator and parsing the text again gives the same entries in order |
| Tasks.NatToString | tasks.py:22 | a count is printed as a non-empty string of decimal digits that denotes the count, with no leading zero |
| Tasks.CountMessageDeterminesCounts | tasks.py:22 | the subject-count message gives back both counts: different counts never print the same message |
| Tasks.PromptLines | tasks.py:31 | one line `- {matiere} ({moyenne}): {commentaire}` per record, in record order |
| Tasks.ListeLines | tasks.py:31 | when no field holds a line break, the newline-joined list splits back into exactly the prompt lines |
| Tasks.ParsedListeLines | tasks.py:31 | for any page the parser reads with at least one subject, the prompt list has exactly one line per subject, in order |
| Tasks.SplitReplyAtFirst | tasks.py:52-56 | the reply is cut at the first separator only, and both parts are stripped |
| Tasks.SplitReplyWithout | tasks.py:57-59 | without a separator the principal text is the unchanged reply and the justification is the fixed sentence |
| Tasks.TraiterUnBulletin | tasks.py:14-67 | the name check comes first, then the subject count (with both counts), then the API key; with all three passed, success exactly when the service answers, and its failure message otherwise; on success the name is the caller's expected name and the record is the parsed one |
| Tasks.TaskReplyIsSplit | tasks.py:48-60 | on success both texts are the split of the service's reply to the prompt built from the record |
| Config.SecretKey | config.py:4 | the development key when SECRET_KEY is unset, the variable's value otherwise |
| Config.DatabaseUri | config.py:8-18 | `postgres://` becomes `postgresql://` with the rest unchanged, any other non-empty URL is kept verbatim, a missing or empty one gives `sqlite:///local.db`, and the result never starts with `postgres://` |
| App.SecretKey | app.py:19 | this module's own default key when SECRET_KEY is unset |
| App.DatabaseUri | app.py:22-27 | a missing or empty URL gives `sqlite:///local_database.db`; `postgres://` is rewritten only when the URL does not contain "sqlite"; otherwise the URL is kept |
| App.DatabaseRulesAgree | app.py:22-26 | for a non-empty URL without "sqlite", app.py and config.py compute the same URI |
| App.DatabaseRulesDiffer | app.py:25-26 | `postgres://sqlite` is kept by app.py but rewritten by config.py |
| App.ElevesListe | app.py:102 | students are the newline-split, trimmed, non-empty entries, none holding a newline |
| App.MatieresAttendues | app.py:103 | subjects are the comma-split, trimmed, non-empty entries, none holding a comma |
| App.AnalysesFaites | app.py:162 | the set holds every stored analysis's student name and nothing else |
| App.AnalysesFaitesAdd | app.py:162 | storing one more analysis adds exactly its student's name |
| App.SplitRepliesCompare | app.py:146-151 | with the separator app.py splits like tasks.py; without it both keep the whole reply, but the justification is "" here and the fixed sentence in tasks.py |
| App.AnalyserPost | app.py:105-160 | a missing file or blank name is refused first, then an empty page, a missing parsed name (quoting the stripped form name), a wrong subject count and a missing key; with all passed, success exactly when the service answers, and its failure message otherwise; a success stores the stripped form name and the parsed record |
| App.ValidationMatchesTask | app.py:123-127 | once file, name and text are present, app.py refuses a record for a name, count or key reason exactly when tasks.py does, given the class's expected subjects |
| App.StoredReplyIsSplit | app.py:142-153 | the stored texts are app.py's split of the service's reply |
| MainRoutes.JobQueue.constructor | main.py:15-18 | the queue model starts with no job, its ids fixed by `idOf` |
| MainRoutes.JobQueue.Enqueue | main.py:88-89 | enqueueing appends exactly one job and returns the id of its position |
| MainRoutes.KeptIndices | main.py:80-89 | the enqueued files are listed in increasing position, each has a name and readable bytes, and none of those is missed |
| MainRoutes.PlannedPairs | main.py:80-89 | there is one job per kept file, and the k-th job pairs the k-th kept file with the student at that file's position |
| MainRoutes.PlannedCarriesSubjects | main.py:88 | every job carries the whole expected-subject list, the job function name and the 10-minute timeout |
| MainRoutes.Ids | main.py:89 | the ids of n consecutive jobs, in enqueue order |
| MainRoutes.LancerAnalyse | main.py:61-99 | an empty file list or roster enqueues nothing, and neither do fewer students than files; otherwise exactly the planned jobs are appended in file order, and the redirect carries their comma-joined ids, or no job is reported |
| MainRoutes.TrackingRoundTrip | main.py:99-104 | splitting the comma-joined ids of a launch gives back the ids, when no id contains a comma |
| MainRoutes.CommaIdBreaksRoundTrip | main.py:99-104 | an id with a comma comes back as two ids |
| MainRoutes.ErrorSummary | main.py:123 | a failed job's error is the last line of its stripped traceback (no newline, a suffix that starts a line), or "Tâche échouée." when there is none |
| MainRoutes.LastLineSummary | main.py:123 | when a traceback ends with a one-line message followed only by whitespace, that line is the error reported |
| MainRoutes.EntryFor | main.py:113-129 | an entry keeps the requested id; "non_trouve" exactly for unknown ids; failed jobs report the error summary; a finished job with a stored analysis reports its principal text, its rendered justifications and its parsed record; any other job has no result body; `nom_eleve` is `args[1]` whenever the job has arguments |
| MainRoutes.StatutJobs | main.py:108-130 | exactly one entry per requested id, in request order |

## Left out

- Flask routing, sessions, flash categories, redirects, templates and login, in app.py and main.py: web plumbing. The flashed messages of app.py and main.py are modelled as error values carrying the values they quote; their wording is not modelled. The messages of tasks.py are modelled with their texts (`Tasks.Message`).
- The SQLAlchemy models and commits (app.py:30-60, models.py). `Analyse` and `Classe` rows are datatypes, and committing is not modelled.
- The RQ/Redis queue internals (main.py:15-18, worker.py): job states, the 10-minute timeout and the worker. The queue is a list of submissions with an id per position, and job states are an abstract map.
- pdfplumber text extraction (app.py:114-118): the page text is a parameter.
- The Mistral client and chat call (tasks.py:29-50, app.py:126-144): the service is a function parameter, and a failure it raises is an error value. The model name and the temperature are not modelled.
- Saving, reading back and deleting uploaded files (main.py:83-94): an upload carries its bytes, or None when saving or reading failed. The printed error is not modelled.
- MainRoutes.JobQueue.Enqueue: never fails. main.py:84-92 catches a failed `q.enqueue` in the same handler as a failed save or read, and skips the file. The model folds all three failures into an upload whose content is None. `MainRoutes.LancerAnalyse` skips such a file, and reports that no job was launched when every file is skipped. A file that is saved and read but whose enqueue fails is not told apart.
- The Misaka Markdown rendering (main.py:121): the renderer is a function parameter of `MainRoutes.EntryFor`.
- The `print` calls (parser.py:97, tasks.py:71, config.py:17) are not modelled.
- Non-ASCII `\s`/`\d` characters: see the alphabet assumption above.
- `Tasks.TraiterUnBulletin` and `App.AnalyserPost` take the already-parsed record as a parameter. tasks.py:16 and app.py:122 call the one-parameter `analyser_texte_bulletin` with three arguments, which would raise a TypeError. The validation is modelled as it reads after the call.
- `MainRoutes.LancerAnalyse` enqueues the PDF bytes as the job's first argument, as main.py:88 does. tasks.py treats that argument as text. The model does not connect the two.
- `MainRoutes.EntryFor`: the `store` map stands for `Analyse.query.get(job_id)`, a lookup of an analysis row by the RQ job id (main.py:119). Nothing in these files stores a row under that key.
- `MainRoutes.EntryFor`: `justifications or ""` is modelled as the stored string itself, because the `Analyse` rows written by app.py always hold a string.
- `App.AnalyserPost`: `hasFile` stands for the truth value of the uploaded file object, and `classeId` is the session's class id as given.
