/**
 * Model of the routes of main.py that hold logic: `lancer_analyse`, which pairs uploaded files
 * with students and enqueues one background job per file, `page_suivi`, which reads the job ids
 * back from the URL segment, and `statut_jobs`, which reports one entry per requested job.
 *
 * The Redis queue is the class `JobQueue`: the jobs it holds and the id it hands out for the
 * n-th job. The job states kept by the queue library are an abstract map from job id to `JobInfo`.
 */
module MainRoutes {
  import opened Wrappers
  import opened Text
  import opened Roster
  import App
  import Tasks
  import Parser

  const TaskName: string := "tasks.traiter_un_bulletin"
  const JobTimeout: string := "10m"

  /**
   * An uploaded file: its name, and its bytes, or None when one of the steps of main.py:85-89 raised
   * for it (saving it, reading it back, or handing its job to the queue).
   */
  datatype Upload = Upload(filename: string, content: Option<seq<bv8>>)

  /** The positional arguments of a job: the PDF bytes, the student name and the expected subjects. */
  datatype JobArgs = JobArgs(pdf: seq<bv8>, nomEleve: string, matieres: seq<string>)

  /** What `q.enqueue` is given. */
  datatype Submission = Submission(task: string, args: JobArgs, timeout: string)

  /** The job queue: the jobs enqueued so far, and the id given to the job at each position. */
  class JobQueue {
    var jobs: seq<Submission>
    const idOf: nat -> string

    constructor (idOf: nat -> string)
      ensures jobs == [] && this.idOf == idOf
    {
      jobs := [];
      this.idOf := idOf;
    }

    /** Appends a job and returns its id. */
    method Enqueue(s: Submission) returns (id: string)
      modifies this
      ensures jobs == old(jobs) + [s]
      ensures id == idOf(|old(jobs)|)
    {
      id := idOf(|jobs|);
      jobs := jobs + [s];
    }
  }

  /** A file is enqueued when it has a name and its bytes could be saved and read back. */
  predicate Kept(f: Upload) {
    f.filename != [] && f.content.Some?
  }

  /** The job for a kept file and the student at the same position. */
  function Submit(f: Upload, nom: string, matieres: seq<string>): Submission
    requires Kept(f)
  {
    Submission(TaskName, JobArgs(f.content.value, nom, matieres), JobTimeout)
  }

  /** The jobs that the first n files give, in file order; file i goes with student i. */
  function Planned(fichiers: seq<Upload>, eleves: seq<string>, matieres: seq<string>, n: nat): seq<Submission>
    requires n <= |fichiers| <= |eleves|
  {
    if n == 0 then []
    else
      Planned(fichiers, eleves, matieres, n - 1)
      + (if Kept(fichiers[n - 1]) then [Submit(fichiers[n - 1], eleves[n - 1], matieres)] else [])
  }

  /** The positions, among the first n files, of those that are enqueued. */
  function KeptIndices(fichiers: seq<Upload>, n: nat): (r: seq<nat>)
    requires n <= |fichiers|
    ensures forall k :: 0 <= k < |r| ==> r[k] < n && Kept(fichiers[r[k]])
    ensures forall k, l :: 0 <= k < l < |r| ==> r[k] < r[l]
    ensures forall i :: 0 <= i < n && Kept(fichiers[i]) ==> i in r
  {
    if n == 0 then []
    else KeptIndices(fichiers, n - 1) + (if Kept(fichiers[n - 1]) then [n - 1] else [])
  }

  /**
   * The k-th job pairs the k-th kept file with the student at that file's position, and there is
   * one job per kept file.
   */
  lemma {:induction false} PlannedPairs(fichiers: seq<Upload>, eleves: seq<string>, matieres: seq<string>, n: nat)
    requires n <= |fichiers| <= |eleves|
    ensures var idx := KeptIndices(fichiers, n); var p := Planned(fichiers, eleves, matieres, n);
      |p| == |idx| && forall k :: 0 <= k < |idx| ==> p[k] == Submit(fichiers[idx[k]], eleves[idx[k]], matieres)
  {
    if n > 0 {
      PlannedPairs(fichiers, eleves, matieres, n - 1);
    }
  }

  /** Every job carries the same expected-subject list and the fixed task name and timeout. */
  predicate CarriesSubjects(p: seq<Submission>, matieres: seq<string>) {
    forall k :: 0 <= k < |p| ==> p[k].args.matieres == matieres && p[k].task == TaskName && p[k].timeout == JobTimeout
  }

  /** Every planned job carries the whole expected-subject list, the job function name and the timeout. */
  lemma {:induction false} PlannedCarriesSubjects(fichiers: seq<Upload>, eleves: seq<string>, matieres: seq<string>, n: nat)
    requires n <= |fichiers| <= |eleves|
    ensures CarriesSubjects(Planned(fichiers, eleves, matieres, n), matieres)
  {
    if n > 0 {
      PlannedCarriesSubjects(fichiers, eleves, matieres, n - 1);
      var prev := Planned(fichiers, eleves, matieres, n - 1);
      var tail := if Kept(fichiers[n - 1]) then [Submit(fichiers[n - 1], eleves[n - 1], matieres)] else [];
      var p := Planned(fichiers, eleves, matieres, n);
      assert p == prev + tail;
      forall k | 0 <= k < |p|
        ensures p[k].args.matieres == matieres && p[k].task == TaskName && p[k].timeout == JobTimeout
      {
        if k < |prev| {
          assert p[k] == prev[k];
        } else {
          assert p[k] == tail[k - |prev|];
        }
      }
    }
  }

  /** The ids handed out for n jobs enqueued after the first `start`. */
  function Ids(idOf: nat -> string, start: nat, n: nat): (r: seq<string>)
    ensures |r| == n && forall k :: 0 <= k < n ==> r[k] == idOf(start + k)
  {
    seq(n, k requires 0 <= k => idOf(start + k))
  }

  /** What `lancer_analyse` answers. */
  datatype LaunchOutcome =
    | MissingFields
    | TooFewStudents(files: nat, students: nat)
    | NoJobLaunched
    | Tracking(segment: string)

  /**
   * `lancer_analyse` (main.py:61-99): parses both rosters, refuses an empty field or fewer students
   * than files, then enqueues one job per kept file, in file order, and redirects to the
   * comma-joined list of their ids.
   */
  method LancerAnalyse(q: JobQueue, fichiers: seq<Upload>, matieresStr: string, elevesStr: string)
    returns (o: LaunchOutcome)
    modifies q
    ensures var ms := Pieces(matieresStr, ','); var es := Pieces(elevesStr, '\n');
      if fichiers == [] || ms == [] || es == [] then o == MissingFields && q.jobs == old(q.jobs)
      else if |es| < |fichiers| then o == TooFewStudents(|fichiers|, |es|) && q.jobs == old(q.jobs)
      else
        var p := Planned(fichiers, es, ms, |fichiers|);
        q.jobs == old(q.jobs) + p
        && (if p == [] then o == NoJobLaunched else o == Tracking(Join(Ids(q.idOf, |old(q.jobs)|, |p|), ",")))
  {
    var matieres := Pieces(matieresStr, ',');
    var eleves := Pieces(elevesStr, '\n');
    if fichiers == [] || matieres == [] || eleves == [] {
      return MissingFields;
    }
    var nombre := |fichiers|;
    if |eleves| < nombre {
      return TooFewStudents(nombre, |eleves|);
    }
    var jobIds: seq<string> := [];
    ghost var start := |q.jobs|;
    for i := 0 to nombre
      invariant q.jobs == old(q.jobs) + Planned(fichiers, eleves, matieres, i)
      invariant jobIds == Ids(q.idOf, start, |Planned(fichiers, eleves, matieres, i)|)
    {
      var fichier, nom := fichiers[i], eleves[i];
      if fichier.filename == [] {
        continue;
      }
      match fichier.content {
        case None =>
        case Some(bytes) =>
          var id := q.Enqueue(Submission(TaskName, JobArgs(bytes, nom, matieres), JobTimeout));
          jobIds := jobIds + [id];
      }
    }
    if jobIds == [] {
      return NoJobLaunched;
    }
    return Tracking(Join(jobIds, ","));
  }

  /** `page_suivi` (main.py:104): the job ids read back from the URL segment. */
  function PageSuivi(segment: string): seq<string> {
    Split(segment, ',')
  }

  /**
   * The ids of a launch come back unchanged from the tracking URL, provided the queue never hands
   * out an id with a comma in it.
   */
  lemma TrackingRoundTrip(idOf: nat -> string, start: nat, n: nat)
    requires n >= 1
    requires forall k: nat :: ',' !in idOf(k)
    ensures PageSuivi(Join(Ids(idOf, start, n), ",")) == Ids(idOf, start, n)
  {
    var ids := Ids(idOf, start, n);
    forall i | 0 <= i < |ids| ensures ',' !in ids[i] {
      assert ids[i] == idOf(start + i);
    }
    SplitJoin(ids, ',');
  }

  /** An id containing a comma does not survive the round trip. */
  lemma CommaIdBreaksRoundTrip()
    ensures PageSuivi(Join(["a,b"], ",")) == ["a", "b"] != ["a,b"]
  {
    assert Join(["a,b"], ",") == "a,b";
    assert Split("", ',') == [""];
    assert "b"[1..] == "";
    var rb := Split("", ',');
    assert Split("b", ',') == [['b'] + rb[0]] + rb[1..];
    assert rb[0] == "" && rb[1..] == [];
    assert ['b'] + "" == "b";
    assert Split("b", ',') == ["b"];
    assert ",b"[1..] == "b";
    assert Split(",b", ',') == ["", "b"];
    assert "a,b"[1..] == ",b";
    var rab := Split(",b", ',');
    assert Split("a,b", ',') == [['a'] + rab[0]] + rab[1..];
    assert rab[0] == "" && rab[1..] == ["b"];
    assert ['a'] + "" == "a";
    assert Split("a,b", ',') == ["a", "b"];
  }

  /** The states the queue library reports. */
  datatype JobStatus = Queued | Started | Deferred | Finished | Stopped | Scheduled | Canceled | Failed

  function StatusName(s: JobStatus): string {
    match s
    case Queued => "queued"
    case Started => "started"
    case Deferred => "deferred"
    case Finished => "finished"
    case Stopped => "stopped"
    case Scheduled => "scheduled"
    case Canceled => "canceled"
    case Failed => "failed"
  }

  /** What the queue knows of a job: its state, its arguments (None when empty) and its error text. */
  datatype JobInfo = JobInfo(status: JobStatus, args: Option<JobArgs>, excInfo: Option<string>)

  const NoErrorText: string := "Tâche échouée."

  /** The error reported for a failed job: the last line of the stripped traceback (main.py:123). */
  function ErrorSummary(excInfo: Option<string>): (r: string)
    ensures excInfo.None? || excInfo.value == [] ==> r == NoErrorText
    ensures excInfo.Some? && excInfo.value != [] ==>
      var s := Strip(excInfo.value);
      '\n' !in r && |r| <= |s| && r == s[|s| - |r|..] && (|r| == |s| || s[|s| - |r| - 1] == '\n')
  {
    if excInfo.None? || excInfo.value == [] then NoErrorText
    else
      var lines := Split(Strip(excInfo.value), '\n');
      SplitLastPiece(Strip(excInfo.value), '\n');
      lines[|lines| - 1]
  }

  /**
   * When a traceback ends with a one-line message (then only whitespace), that line is the error
   * reported for the job.
   */
  lemma LastLineSummary(tb: string, line: string, tail: string)
    requires line != [] && '\n' !in line && !IsSpace(line[0]) && !IsSpace(line[|line| - 1])
    requires AllSpace(tail)
    ensures ErrorSummary(Some(tb + "\n" + line + tail)) == line
  {
    var x := tb + "\n" + line + tail;
    var l, e := |tb| + 1, |tb| + 1 + |line|;
    assert x[l..e] == line;
    assert x[l - 1] == '\n';
    assert x[e..] == tail;
    StripSpec(x);
    var s := Strip(x);
    var k := |x| - |TrimLeft(x)|;
    assert k <= l;
    assert k + |s| == e;
    var r := ErrorSummary(Some(x));
    assert s == x[k..e];
    assert |r| == |line|;
    assert r == s[|s| - |line|..] == x[l..e];
  }

  /** The body of a job's result before the student name is set. */
  datatype ResultBody =
    | NoBody
    | Succes(appreciationPrincipale: string, justificationsHtml: string, donnees: Parser.Donnees)
    | Echec(erreur: string)

  /** A job's result dictionary: its body and its `nom_eleve` key, if any. */
  datatype Resultat = Resultat(body: ResultBody, nomEleve: Option<string>)

  /** One entry of the answer of `statut_jobs`. */
  datatype Entry = Found(id: string, status: string, resultat: Resultat) | NotFound(id: string)

  const NotFoundStatus: string := "non_trouve"

  /**
   * The entry for one requested id (main.py:114-129). `store` stands for the `Analyse` rows looked
   * up by the job id, and `markdown` for the Markdown-to-HTML rendering of the justifications.
   */
  function EntryFor(id: string, jobs: map<string, JobInfo>, store: map<string, App.StoredAnalyse>, markdown: string -> string): (r: Entry)
    ensures r.id == id
    ensures r.NotFound? <==> id !in jobs
    ensures r.Found? ==> r.status == StatusName(jobs[id].status)
    ensures r.Found? && jobs[id].status == Failed ==> r.resultat.body == Echec(ErrorSummary(jobs[id].excInfo))
    ensures r.Found? && jobs[id].status == Finished && id in store ==>
      r.resultat.body == Succes(store[id].appreciationPrincipale, markdown(store[id].justifications), store[id].donneesBrutes)
    ensures r.Found? && (jobs[id].status == Finished ==> id !in store) && jobs[id].status != Failed ==>
      r.resultat.body == NoBody
    ensures r.Found? && jobs[id].args.Some? ==> r.resultat.nomEleve == Some(jobs[id].args.value.nomEleve)
    ensures r.Found? && jobs[id].args.None? ==>
      r.resultat.nomEleve == if r.resultat.body.Succes? then Some(store[id].nomEleve) else None
  {
    if id !in jobs then NotFound(id)
    else
      var job := jobs[id];
      var resultat :=
        if job.status == Finished && id in store then
          var a := store[id];
          Resultat(Succes(a.appreciationPrincipale, markdown(a.justifications), a.donneesBrutes), Some(a.nomEleve))
        else if job.status == Failed then Resultat(Echec(ErrorSummary(job.excInfo)), None)
        else Resultat(NoBody, None);
      var named := if job.args.Some? then resultat.(nomEleve := Some(job.args.value.nomEleve)) else resultat;
      Found(id, StatusName(job.status), named)
  }

  /** `statut_jobs` (main.py:108-130): one entry per requested id, in request order. */
  method StatutJobs(ids: seq<string>, jobs: map<string, JobInfo>, store: map<string, App.StoredAnalyse>, markdown: string -> string)
    returns (resultats: seq<Entry>)
    ensures |resultats| == |ids|
    ensures forall i :: 0 <= i < |ids| ==> resultats[i] == EntryFor(ids[i], jobs, store, markdown)
  {
    resultats := [];
    for i := 0 to |ids|
      invariant |resultats| == i
      invariant forall k :: 0 <= k < i ==> resultats[k] == EntryFor(ids[k], jobs, store, markdown)
    {
      var jobId := ids[i];
      if jobId in jobs {
        var job := jobs[jobId];
        var final := Resultat(NoBody, None);
        if job.status == Finished {
          if jobId in store {
            var a := store[jobId];
            final := Resultat(Succes(a.appreciationPrincipale, markdown(a.justifications), a.donneesBrutes), Some(a.nomEleve));
          }
        } else if job.status == Failed {
          final := Resultat(Echec(ErrorSummary(job.excInfo)), None);
        }
        if job.args.Some? {
          final := final.(nomEleve := Some(job.args.value.nomEleve));
        }
        resultats := resultats + [Found(jobId, StatusName(job.status), final)];
      } else {
        resultats := resultats + [NotFound(jobId)];
      }
    }
  }
}
