/**
 * Model of the pure fragments of app.py, the single-process Flask variant of the application:
 * the database-URL rule, the class rosters, the validation of a submitted report card, the
 * prompt it builds, the reply split and the set of students already analysed.
 *
 * Environment variables are `Option<string>` parameters; the extracted page text, the parsed
 * record and the completion service are parameters as well.
 */
module App {
  import opened Wrappers
  import opened Text
  import Roster
  import Parser
  import Tasks
  import Config

  const DefaultSecretKey: string := "une-cle-secrete-tres-securisee"
  const LocalDatabase: string := "sqlite:///local_database.db"

  /** `os.getenv('SECRET_KEY', default)` with this module's own default (app.py:19). */
  function SecretKey(env: Option<string>): (r: string)
    ensures env.None? ==> r == DefaultSecretKey
    ensures env.Some? ==> r == env.value
  {
    env.GetOr(DefaultSecretKey)
  }

  /**
   * The database URL (app.py:22-26): a missing or empty DATABASE_URL becomes the local SQLite
   * file; a `postgres://` prefix is rewritten only when the URL does not mention "sqlite".
   */
  function DatabaseUri(env: Option<string>): (r: string)
    ensures env.None? || env.value == [] ==> r == LocalDatabase
    ensures env.Some? && env.value != [] && Contains(env.value, "sqlite") ==> r == env.value
    ensures env.Some? && env.value != [] && !Contains(env.value, "sqlite") && StartsWith(env.value, Config.HerokuScheme) ==>
      r == Config.SqlAlchemyScheme + env.value[|Config.HerokuScheme|..]
    ensures env.Some? && !StartsWith(env.value, Config.HerokuScheme) ==> r == if env.value == [] then LocalDatabase else env.value
    ensures !StartsWith(r, Config.HerokuScheme) || Contains(r, "sqlite")
  {
    var u := if env.None? || env.value == [] then LocalDatabase else env.value;
    if !Contains(u, "sqlite") && StartsWith(u, Config.HerokuScheme) then
      ReplaceFirstPrefix(u, Config.HerokuScheme, Config.SqlAlchemyScheme);
      assert (Config.SqlAlchemyScheme + u[|Config.HerokuScheme|..])[8] != Config.HerokuScheme[8];
      ReplaceFirst(u, Config.HerokuScheme, Config.SqlAlchemyScheme)
    else
      assert u == LocalDatabase ==> LocalDatabase[0] != Config.HerokuScheme[0];
      u
  }

  /** For a non-empty URL that does not mention "sqlite", app.py and config.py compute the same URI. */
  lemma DatabaseRulesAgree(env: Option<string>)
    requires env.Some? && env.value != [] && !Contains(env.value, "sqlite")
    ensures DatabaseUri(env) == Config.DatabaseUri(env)
  {
  }

  /** A `postgres://` URL that mentions "sqlite" is rewritten by config.py and kept by app.py. */
  lemma DatabaseRulesDiffer()
    ensures var env := Some("postgres://sqlite");
      DatabaseUri(env) == "postgres://sqlite" && Config.DatabaseUri(env) == "postgresql://sqlite"
  {
    var u := "postgres://sqlite";
    assert OccursAt(u, "sqlite", 11);
    assert Contains(u, "sqlite");
    assert u[..|Config.HerokuScheme|] == Config.HerokuScheme;
    assert StartsWith(u, Config.HerokuScheme);
    assert u[|Config.HerokuScheme|..] == "sqlite";
    assert Config.SqlAlchemyScheme + "sqlite" == "postgresql://sqlite";
  }

  /** A row of the `Analyse` table (app.py:51-57). */
  datatype StoredAnalyse = StoredAnalyse(
    nomEleve: string,
    appreciationPrincipale: string,
    justifications: string,
    donneesBrutes: Parser.Donnees,
    classeId: string)

  /** A row of the `Classe` table with its analyses (app.py:43-49); both rosters are raw text. */
  datatype Classe = Classe(
    anneeScolaire: string,
    nomClasse: string,
    matieres: string,
    eleves: string,
    analyses: seq<StoredAnalyse>)

  /** The student list: the newline-separated roster, trimmed, blanks dropped (app.py:102). */
  function ElevesListe(c: Classe): (r: seq<string>)
    ensures forall i :: 0 <= i < |r| ==> r[i] != [] && IsStripped(r[i]) && '\n' !in r[i]
  {
    Roster.PiecesShape(c.eleves, '\n');
    Roster.Pieces(c.eleves, '\n')
  }

  /** The expected subjects: the comma-separated roster, trimmed, blanks dropped (app.py:103). */
  function MatieresAttendues(c: Classe): (r: seq<string>)
    ensures forall i :: 0 <= i < |r| ==> r[i] != [] && IsStripped(r[i]) && ',' !in r[i]
  {
    Roster.PiecesShape(c.matieres, ',');
    Roster.Pieces(c.matieres, ',')
  }

  /** The names of the students that already have an analysis in the class (app.py:162). */
  function AnalysesFaites(analyses: seq<StoredAnalyse>): (r: set<string>)
    ensures forall i :: 0 <= i < |analyses| ==> analyses[i].nomEleve in r
    ensures forall n :: n in r ==> exists i :: 0 <= i < |analyses| && analyses[i].nomEleve == n
  {
    set a | a in analyses :: a.nomEleve
  }

  /** Adding an analysis adds exactly its student's name. */
  lemma AnalysesFaitesAdd(analyses: seq<StoredAnalyse>, a: StoredAnalyse)
    ensures AnalysesFaites(analyses + [a]) == AnalysesFaites(analyses) + {a.nomEleve}
  {
  }

  const UserPromptHead: string := "\n            Voici les données de l'élève "
  const UserPromptData: string := ".\n            Données brutes :\n            "
  // The fixed lines of the user prompt (app.py:135-139), each after a line break and the indentation.
  const TwoPartsRule: string := "\n            Ta réponse doit être en DEUX parties distinctes, séparées par \"--- JUSTIFICATIONS ---\"."
  const PartOneTitle: string := "\n            **Partie 1 : Appréciation Globale**"
  const PartOneRule: string := "\n            Rédige un paragraphe de 2 à 3 phrases pour le bulletin."
  const PartTwoTitle: string := "\n            **Partie 2 : Justifications**"
  const PartTwoRule: string := "\n            Sous le séparateur, justifie chaque idée clé avec des citations brutes des commentaires."
  const UserPromptTail: string :=
    TwoPartsRule + PartOneTitle + PartOneRule + PartTwoTitle + PartTwoRule + "\n            "

  /** The user prompt of app.py:131-140, built from the name typed in the form and the subject list. */
  function UserPrompt(nom: string, liste: string): string {
    UserPromptHead + nom + UserPromptData + liste + UserPromptTail
  }

  /** The reply split of app.py:146-151: the same cut as tasks.py's, but an empty fallback. */
  function SplitReply(reply: string): (string, string) {
    match SplitOnce(reply, Tasks.Separator)
    case Some((a, b)) => (Strip(a), Strip(b))
    case None => (reply, "")
  }

  /**
   * The two reply splits agree when the separator is present; without it both keep the whole reply
   * as the principal comment, and only the justifications differ.
   */
  lemma SplitRepliesCompare(reply: string)
    ensures Contains(reply, Tasks.Separator) ==> SplitReply(reply) == Tasks.SplitReply(reply)
    ensures !Contains(reply, Tasks.Separator) ==>
      SplitReply(reply) == (reply, "") && Tasks.SplitReply(reply) == (reply, Tasks.NoJustification)
  {
  }

  /** Why a submission was not analysed. */
  datatype AppError =
    | NoSelection
    | EmptyPdf
    | NameNotFound(nom: string)
    | SubjectCountMismatch
    | MissingApiKey
    | ServiceError(message: string)

  /**
   * The POST branch of `analyser` (app.py:105-160). `hasFile` says whether a file with a name was
   * sent, `nomForm` is the raw form field, `texte` the extracted first-page text and `d` the parsed
   * record. On success the result is the new `Analyse` row, stored under the stripped form name.
   */
  function AnalyserPost(
    c: Classe, classeId: string, hasFile: bool, nomForm: string, texte: string, d: Parser.Donnees,
    apiKey: Option<string>, service: (string, string) -> Tasks.Reply): (r: Result<StoredAnalyse, AppError>)
    ensures r == Failure(NoSelection) <==> !hasFile || Strip(nomForm) == []
    ensures r == Failure(EmptyPdf) <==> hasFile && Strip(nomForm) != [] && texte == []
    ensures r.Failure? && r.error.NameNotFound? <==>
      hasFile && Strip(nomForm) != [] && texte != [] && Tasks.NameMissing(d)
    ensures r.Failure? && r.error.NameNotFound? ==> r.error.nom == Strip(nomForm)
    ensures r == Failure(SubjectCountMismatch) <==>
      hasFile && Strip(nomForm) != [] && texte != [] && !Tasks.NameMissing(d)
      && |d.appreciationsMatieres| != |MatieresAttendues(c)|
    ensures r == Failure(MissingApiKey) <==>
      hasFile && Strip(nomForm) != [] && texte != [] && !Tasks.NameMissing(d)
      && |d.appreciationsMatieres| == |MatieresAttendues(c)| && (apiKey.None? || apiKey.value == [])
    ensures r.Success? <==>
      hasFile && Strip(nomForm) != [] && texte != [] && !Tasks.NameMissing(d)
      && |d.appreciationsMatieres| == |MatieresAttendues(c)| && apiKey.Some? && apiKey.value != []
      && service(Tasks.SystemPrompt, UserPrompt(Strip(nomForm), Tasks.ListeAppreciations(d.appreciationsMatieres))).Answer?
    ensures (hasFile && Strip(nomForm) != [] && texte != [] && !Tasks.NameMissing(d)
       && |d.appreciationsMatieres| == |MatieresAttendues(c)| && apiKey.Some? && apiKey.value != []
       && service(Tasks.SystemPrompt, UserPrompt(Strip(nomForm), Tasks.ListeAppreciations(d.appreciationsMatieres))).ServiceFailure?) ==>
      r == Failure(ServiceError(
        service(Tasks.SystemPrompt, UserPrompt(Strip(nomForm), Tasks.ListeAppreciations(d.appreciationsMatieres))).message))
    ensures r.Success? ==>
      r.value.nomEleve == Strip(nomForm) && r.value.nomEleve != [] && r.value.donneesBrutes == d
      && r.value.classeId == classeId
  {
    var nom := Strip(nomForm);
    if !hasFile || nom == [] then Failure(NoSelection)
    else if texte == [] then Failure(EmptyPdf)
    else if Tasks.NameMissing(d) then Failure(NameNotFound(nom))
    else if |d.appreciationsMatieres| != |MatieresAttendues(c)| then Failure(SubjectCountMismatch)
    else if apiKey.None? || apiKey.value == [] then Failure(MissingApiKey)
    else
      match service(Tasks.SystemPrompt, UserPrompt(nom, Tasks.ListeAppreciations(d.appreciationsMatieres)))
      case ServiceFailure(message) => Failure(ServiceError(message))
      case Answer(reply) =>
        var (principale, justifications) := SplitReply(reply);
        Success(StoredAnalyse(nom, principale, justifications, d, classeId))
  }

  /**
   * Once a file and a name are given and the page is not empty, app.py rejects a record for the
   * same name, count and key reasons as the background task given the class's expected subjects.
   */
  lemma ValidationMatchesTask(
    c: Classe, classeId: string, nomForm: string, texte: string, d: Parser.Donnees,
    apiKey: Option<string>, service: (string, string) -> Tasks.Reply)
    requires Strip(nomForm) != [] && texte != []
    ensures var a := AnalyserPost(c, classeId, true, nomForm, texte, d, apiKey, service);
      var t := Tasks.TraiterUnBulletin(d, Strip(nomForm), MatieresAttendues(c), apiKey, service);
      (a.Failure? && a.error.NameNotFound? <==> t == Failure(Tasks.NameNotFound))
      && (a == Failure(SubjectCountMismatch) <==> t.Failure? && t.error.SubjectCountMismatch?)
      && (a == Failure(MissingApiKey) <==> t == Failure(Tasks.MissingApiKey))
  {
  }

  /** On success the stored texts are this module's split of the service's reply. */
  lemma StoredReplyIsSplit(
    c: Classe, classeId: string, hasFile: bool, nomForm: string, texte: string, d: Parser.Donnees,
    apiKey: Option<string>, service: (string, string) -> Tasks.Reply)
    requires AnalyserPost(c, classeId, hasFile, nomForm, texte, d, apiKey, service).Success?
    ensures var r := AnalyserPost(c, classeId, hasFile, nomForm, texte, d, apiKey, service).value;
      var reply := service(Tasks.SystemPrompt, UserPrompt(Strip(nomForm), Tasks.ListeAppreciations(d.appreciationsMatieres)));
      (r.appreciationPrincipale, r.justifications) == SplitReply(reply.content)
  {
  }
}
