/**
 * Model of tasks.py: `traiter_un_bulletin`, the background job that checks a parsed report card,
 * asks the completion service for the global comment and splits its reply.
 *
 * The completion service is the parameter `service`, called with the system prompt and the user
 * prompt; the API key read from the worker's environment is the parameter `apiKey`.
 */
module Tasks {
  import opened Wrappers
  import opened Text
  import opened Parser

  const Separator: string := "--- JUSTIFICATIONS ---"
  const NoJustification: string := "L'IA n'a pas fourni de justifications séparées."

  const SystemPrompt: string :=
    "Tu es un professeur principal qui rédige l'appréciation générale."
    + " Ton style est synthétique, analytique et tu justifies tes conclusions."
  const UserPromptHead: string := "\n        Voici les données de l'élève "
  const UserPromptData: string := ".\n        Données brutes :\n        "
  // The fixed lines of the user prompt (tasks.py:37-45), each after a line break and the indentation.
  const TwoPartsRule: string := "\n        Ta réponse doit être en DEUX parties distinctes, séparées par la ligne \"--- JUSTIFICATIONS ---\"."
  const PartOneTitle: string := "\n        **Partie 1 : Appréciation Globale**"
  const PartOneRule: string :=
    "\n        Rédige un paragraphe de 2 à 3 phrases pour le bulletin."
    + " Ce texte doit être synthétique, fluide et ne doit PAS mentionner la moyenne générale."
    + " Il doit identifier les tendances de fond (qualités, points d'amélioration) sans citer de matières spécifiques."
  const PartTwoTitle: string := "\n        **Partie 2 : Justifications**"
  const PartTwoRule: string :=
    "\n        Sous le séparateur, justifie chaque idée clé de ta synthèse."
    + " Pour chaque point, cite les preuves exactes des commentaires des professeurs."
    + " Utilise le format suivant :"
  const FormatIdea: string := "\n        - **Idée synthétisée:** [Ex: L'élève fait preuve de sérieux.]"
  const FormatProof: string := "\n        - **Preuves:**"
  const FormatQuote: string := "\n        - **[Nom de la matière]:** \"[Citation exacte du commentaire]\""
  const WriteNow: string := "\n        Rédige maintenant ta réponse complète."
  const UserPromptTail: string :=
    TwoPartsRule + PartOneTitle + PartOneRule + PartTwoTitle + PartTwoRule
    + FormatIdea + FormatProof + FormatQuote + WriteNow + "\n        "

  /** What the completion service gives back: the reply text, or the failure it raised. */
  datatype Reply = Answer(content: string) | ServiceFailure(message: string)

  /** The ValueErrors `traiter_un_bulletin` raises, and a failure of the completion service. */
  datatype TaskError =
    | NameNotFound
    | SubjectCountMismatch(found: nat, expected: nat)
    | MissingApiKey
    | ServiceError(message: string)

  /** The dictionary `traiter_un_bulletin` returns on success. */
  datatype TaskResult = TaskResult(
    nomEleve: string,
    donnees: Donnees,
    appreciationPrincipale: string,
    justifications: string)

  /** The number a string of decimal digits denotes, most significant digit first. */
  function DigitsValue(s: string): nat
    requires forall i :: 0 <= i < |s| ==> IsDigit(s[i])
  {
    if s == [] then 0
    else
      assert IsDigit(s[|s| - 1]);
      DigitsValue(s[..|s| - 1]) * 10 + (s[|s| - 1] as int - '0' as int)
  }

  /** Decimal digits of n, as an f-string prints an int: they denote n, with no leading zero. */
  function NatToString(n: nat): (r: string)
    ensures r != [] && forall i :: 0 <= i < |r| ==> IsDigit(r[i])
    ensures DigitsValue(r) == n
    ensures r[0] == '0' ==> r == "0"
  {
    var d := ['0' + (n % 10) as char];
    if n < 10 then d
    else
      var h := NatToString(n / 10);
      assert (h + d)[..|h + d| - 1] == h;
      h + d
  }

  const CountHead: string := "Le nombre de matières trouvées ("
  const CountMiddle: string := ") ne correspond pas au nombre attendu ("

  /** The message of each error (tasks.py:20, 22, 27); a service failure keeps its own message. */
  function Message(e: TaskError): (r: string)
    ensures e.ServiceError? ==> r == e.message
  {
    match e
    case NameNotFound => "Le nom de l'élève n'a pas été trouvé dans le contenu du PDF."
    case SubjectCountMismatch(found, expected) =>
      CountHead + NatToString(found) + CountMiddle + NatToString(expected) + ")."
    case MissingApiKey => "La clé MISTRAL_API_KEY n'est pas définie dans l'environnement du worker."
    case ServiceError(message) => message
  }

  /** Two digit strings followed by the same non-digit text are equal when the wholes are. */
  lemma DigitsPrefix(a1: string, a2: string, u1: string, u2: string)
    requires forall i :: 0 <= i < |a1| ==> IsDigit(a1[i])
    requires forall i :: 0 <= i < |a2| ==> IsDigit(a2[i])
    requires u1 != [] && u2 != [] && !IsDigit(u1[0]) && !IsDigit(u2[0])
    requires a1 + u1 == a2 + u2
    ensures a1 == a2 && u1 == u2
  {
    var w := a1 + u1;
    assert forall i :: 0 <= i < |a1| ==> IsDigit(w[i]);
    assert !IsDigit(w[|a1|]);
    assert w == a2 + u2;
    assert forall i :: 0 <= i < |a2| ==> IsDigit(w[i]);
    assert !IsDigit(w[|a2|]);
    assert a1 == (a1 + u1)[..|a1|] == (a2 + u2)[..|a2|] == a2;
    assert u1 == (a1 + u1)[|a1|..] == (a2 + u2)[|a2|..] == u2;
  }

  /** A text made of a head, a digit string, a middle, a digit string and a tail gives back both digit strings. */
  lemma {:induction false} CountTextParts(h: string, a1: string, a2: string, mid: string, b1: string, b2: string, t: string)
    requires forall i :: 0 <= i < |a1| ==> IsDigit(a1[i])
    requires forall i :: 0 <= i < |a2| ==> IsDigit(a2[i])
    requires forall i :: 0 <= i < |b1| ==> IsDigit(b1[i])
    requires forall i :: 0 <= i < |b2| ==> IsDigit(b2[i])
    requires mid != [] && !IsDigit(mid[0]) && t != [] && !IsDigit(t[0])
    requires h + a1 + mid + b1 + t == h + a2 + mid + b2 + t
    ensures a1 == a2 && b1 == b2
  {
    var m1, m2 := h + a1 + mid + b1 + t, h + a2 + mid + b2 + t;
    assert m1[|h|..] == a1 + (mid + b1 + t);
    assert m2[|h|..] == a2 + (mid + b2 + t);
    DigitsPrefix(a1, a2, mid + b1 + t, mid + b2 + t);
    assert (mid + b1 + t)[|mid|..] == b1 + t;
    assert (mid + b2 + t)[|mid|..] == b2 + t;
    DigitsPrefix(b1, b2, t, t);
  }

  /** The count message gives back both counts: distinct counts never print the same message. */
  lemma CountMessageDeterminesCounts(f1: nat, e1: nat, f2: nat, e2: nat)
    requires Message(SubjectCountMismatch(f1, e1)) == Message(SubjectCountMismatch(f2, e2))
    ensures f1 == f2 && e1 == e2
  {
    var tail: string := ").";
    assert CountMiddle[0] == ')' && tail[0] == ')';
    CountTextParts(CountHead, NatToString(f1), NatToString(f2), CountMiddle, NatToString(e1), NatToString(e2), tail);
  }

  /** `not donnees.get("nom_eleve")`: None and the empty string both count as missing. */
  predicate NameMissing(d: Donnees) {
    d.nomEleve.None? || d.nomEleve.value == []
  }

  /** One line of the subject list sent in the prompt (tasks.py:31). */
  function PromptLine(m: Subject): string {
    "- " + m.matiere + " (" + m.moyenne + "): " + m.commentaire
  }

  function PromptLines(ms: seq<Subject>): (r: seq<string>)
    ensures |r| == |ms| && forall i :: 0 <= i < |ms| ==> r[i] == PromptLine(ms[i])
  {
    seq(|ms|, i requires 0 <= i < |ms| => PromptLine(ms[i]))
  }

  /** `"\n".join(...)` of the prompt lines, in subject order. */
  function ListeAppreciations(ms: seq<Subject>): string {
    Join(PromptLines(ms), "\n")
  }

  /** The fields of a subject hold no line break. */
  predicate SingleLine(m: Subject) {
    '\n' !in m.matiere && '\n' !in m.moyenne && '\n' !in m.commentaire
  }

  lemma PromptLineSingle(m: Subject)
    requires SingleLine(m)
    ensures '\n' !in PromptLine(m)
  {
    var l := PromptLine(m);
    assert l == "- " + m.matiere + " (" + m.moyenne + "): " + m.commentaire;
    forall i | 0 <= i < |l| ensures l[i] != '\n' {
      if i < 2 {
      } else if i < 2 + |m.matiere| {
        assert l[i] == m.matiere[i - 2];
      } else if i < 4 + |m.matiere| {
      } else if i < 4 + |m.matiere| + |m.moyenne| {
        assert l[i] == m.moyenne[i - 4 - |m.matiere|];
      } else if i < 7 + |m.matiere| + |m.moyenne| {
      } else {
        assert l[i] == m.commentaire[i - 7 - |m.matiere| - |m.moyenne|];
      }
    }
  }

  /** When no field holds a line break, the list has one line per subject, in order. */
  lemma ListeLines(ms: seq<Subject>)
    requires |ms| >= 1
    requires forall i :: 0 <= i < |ms| ==> SingleLine(ms[i])
    ensures Split(ListeAppreciations(ms), '\n') == PromptLines(ms)
  {
    forall i | 0 <= i < |ms| ensures '\n' !in PromptLines(ms)[i] {
      PromptLineSingle(ms[i]);
    }
    SplitJoin(PromptLines(ms), '\n');
  }

  lemma SentinelsSingleLine()
    ensures '\n' !in NotGraded && '\n' !in NotEvaluatedComment
    ensures '\n' !in ParseError && '\n' !in UnparsedComment
  {
  }

  lemma HeaderTextSingleLine(s: string)
    requires forall i :: 0 <= i < |s| ==> IsHeaderChar(s[i])
    ensures '\n' !in s
  {
  }

  lemma AverageSingleLine(g: string, comment: string)
    requires IsAverage(g) && IsCollapsed(comment)
    ensures '\n' !in g && '\n' !in comment
  {
    CollapsedIsPlain(comment);
    AverageChars(g);
  }

  lemma OutcomeSingleLine(c: Subject)
    requires forall i :: 0 <= i < |c.matiere| ==> IsHeaderChar(c.matiere[i])
    requires (c.moyenne == NotGraded && c.commentaire == NotEvaluatedComment)
      || (c.moyenne == ParseError && c.commentaire == UnparsedComment)
      || (IsAverage(c.moyenne) && IsCollapsed(c.commentaire))
    ensures SingleLine(c)
  {
    HeaderTextSingleLine(c.matiere);
    SentinelsSingleLine();
    if IsAverage(c.moyenne) && IsCollapsed(c.commentaire) {
      AverageSingleLine(c.moyenne, c.commentaire);
    }
  }

  /** A subject cut from the table and cleaned holds no line break. */
  lemma CleanedSingleLine(m: Subject)
    requires IsOpened(m)
    ensures SingleLine(Clean(m))
  {
    CleanOutcomes(m);
    OutcomeSingleLine(Clean(m));
  }

  /** The subjects the parser returns never hold a line break, so the list always has one line per subject. */
  lemma ParsedListeLines(texte: string)
    requires |Analyse(texte).appreciationsMatieres| >= 1
    ensures Split(ListeAppreciations(Analyse(texte).appreciationsMatieres), '\n')
      == PromptLines(Analyse(texte).appreciationsMatieres)
  {
    var ms := Analyse(texte).appreciationsMatieres;
    assert TableRegion(texte).Some?;
    var lines := TableLines(TableRegion(texte).value);
    var seg := Segment(lines);
    assert ms == CleanAll(seg);
    SegmentShape(lines);
    forall i | 0 <= i < |ms| ensures SingleLine(ms[i]) {
      assert IsOpened(seg[i]);
      CleanedSingleLine(seg[i]);
    }
    ListeLines(ms);
  }

  /** The user prompt: the parsed name and the subject list inside the fixed text (tasks.py:33-46). */
  function UserPrompt(nom: string, liste: string): string {
    UserPromptHead + nom + UserPromptData + liste + UserPromptTail
  }

  /** The reply cut at the first separator, both parts stripped; without a separator, the whole reply and a fixed sentence (tasks.py:52-59). */
  function SplitReply(reply: string): (string, string) {
    match SplitOnce(reply, Separator)
    case Some((a, b)) => (Strip(a), Strip(b))
    case None => (reply, NoJustification)
  }

  /**
   * The reply is cut at the first separator only: text before a separator with no earlier one
   * becomes the principal comment, everything after it, later separators included, the justifications.
   */
  lemma SplitReplyAtFirst(a: string, b: string)
    requires forall j :: 0 <= j < |a| ==> !OccursAt(a + Separator, Separator, j)
    ensures SplitReply(a + Separator + b) == (Strip(a), Strip(b))
  {
    var reply := a + Separator + b;
    assert OccursAt(reply, Separator, |a|);
    var pre := a + Separator;
    assert reply == pre + b;
    forall j | 0 <= j < |a| ensures !OccursAt(reply, Separator, j) {
      assert !OccursAt(pre, Separator, j);
      assert reply[j..j + |Separator|] == pre[j..j + |Separator|];
    }
    var r := SplitOnce(reply, Separator);
    assert r.Some?;
    var (x, y) := r.value;
    assert !OccursAt(reply, Separator, |x|) ==> |x| != |a|;
    assert |x| == |a|;
    assert x == reply[..|a|] == a;
    assert y == reply[|a| + |Separator|..] == b;
  }

  /** Without a separator the reply is kept whole and the justifications are the fixed sentence. */
  lemma SplitReplyWithout(reply: string)
    requires !Contains(reply, Separator)
    ensures SplitReply(reply) == (reply, NoJustification)
  {
  }

  /**
   * `traiter_un_bulletin` applied to an already-parsed record `d`: the name check, then the
   * subject count, then the API key, then the completion call and the reply split.
   */
  function TraiterUnBulletin(
    d: Donnees, nomAttendu: string, matieres: seq<string>,
    apiKey: Option<string>, service: (string, string) -> Reply): (r: Result<TaskResult, TaskError>)
    ensures r == Failure(NameNotFound) <==> NameMissing(d)
    ensures r.Failure? && r.error.SubjectCountMismatch? <==>
      !NameMissing(d) && |d.appreciationsMatieres| != |matieres|
    ensures r.Failure? && r.error.SubjectCountMismatch? ==>
      r.error == SubjectCountMismatch(|d.appreciationsMatieres|, |matieres|)
    ensures r == Failure(MissingApiKey) <==>
      !NameMissing(d) && |d.appreciationsMatieres| == |matieres| && (apiKey.None? || apiKey.value == [])
    ensures r.Success? <==>
      !NameMissing(d) && |d.appreciationsMatieres| == |matieres| && apiKey.Some? && apiKey.value != []
      && service(SystemPrompt, UserPrompt(d.nomEleve.value, ListeAppreciations(d.appreciationsMatieres))).Answer?
    ensures (!NameMissing(d) && |d.appreciationsMatieres| == |matieres| && apiKey.Some? && apiKey.value != []
       && service(SystemPrompt, UserPrompt(d.nomEleve.value, ListeAppreciations(d.appreciationsMatieres))).ServiceFailure?) ==>
      r == Failure(ServiceError(
        service(SystemPrompt, UserPrompt(d.nomEleve.value, ListeAppreciations(d.appreciationsMatieres))).message))
    ensures r.Success? ==> r.value.nomEleve == nomAttendu && r.value.donnees == d
  {
    if NameMissing(d) then Failure(NameNotFound)
    else if |d.appreciationsMatieres| != |matieres| then
      Failure(SubjectCountMismatch(|d.appreciationsMatieres|, |matieres|))
    else if apiKey.None? || apiKey.value == [] then Failure(MissingApiKey)
    else
      match service(SystemPrompt, UserPrompt(d.nomEleve.value, ListeAppreciations(d.appreciationsMatieres)))
      case ServiceFailure(message) => Failure(ServiceError(message))
      case Answer(reply) =>
        var (principale, justifications) := SplitReply(reply);
        Success(TaskResult(nomAttendu, d, principale, justifications))
  }

  /** On success the two texts are the split of the service's reply to the prompt built from the record. */
  lemma TaskReplyIsSplit(
    d: Donnees, nomAttendu: string, matieres: seq<string>,
    apiKey: Option<string>, service: (string, string) -> Reply)
    requires TraiterUnBulletin(d, nomAttendu, matieres, apiKey, service).Success?
    ensures var r := TraiterUnBulletin(d, nomAttendu, matieres, apiKey, service).value;
      var reply := service(SystemPrompt, UserPrompt(d.nomEleve.value, ListeAppreciations(d.appreciationsMatieres)));
      (r.appreciationPrincipale, r.justifications) == SplitReply(reply.content)
  {
  }
}
