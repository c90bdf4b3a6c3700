/**
 * The résumé side of the service: which uploads are accepted, which decoder
 * turns an upload into text, and how a fixed taxonomy of skill phrases is
 * searched for in that text (backend/routes/resume.js).
 *
 * The decoders themselves (PDF and Word libraries) are not modelled: what
 * they return, text or an error message, is an input of `ProcessUpload`.
 */
module Resume {
  import opened Wrappers
  import opened Strings

  // ---------------------------------------------------------------------
  // The skill taxonomy, in its source order, one list per category
  // ---------------------------------------------------------------------

  const ProgrammingLanguages: seq<string> := [
    "javascript", "python", "java", "c++", "c#", "php", "ruby", "go", "swift", "kotlin",
    "typescript", "scala", "rust", "dart", "r", "matlab", "sql", "html", "css"]

  const FrontendTechnologies: seq<string> := [
    "react", "angular", "vue", "svelte", "jquery", "bootstrap", "tailwind", "sass", "less",
    "webpack", "vite", "parcel", "redux", "mobx", "next.js", "nuxt.js", "gatsby"]

  const BackendTechnologies: seq<string> := [
    "node.js", "express", "django", "flask", "spring", "laravel", "rails", "asp.net",
    "fastapi", "nestjs", "koa", "hapi", "meteor"]

  const Databases: seq<string> := [
    "mongodb", "mysql", "postgresql", "sqlite", "redis", "cassandra", "dynamodb",
    "firebase", "supabase", "prisma", "sequelize", "mongoose"]

  const CloudAndDevOps: seq<string> := [
    "aws", "azure", "gcp", "docker", "kubernetes", "jenkins", "gitlab", "github",
    "terraform", "ansible", "chef", "puppet", "nginx", "apache"]

  const ToolsAndOthers: seq<string> := [
    "git", "linux", "bash", "powershell", "vim", "vscode", "intellij", "eclipse",
    "figma", "adobe", "photoshop", "illustrator", "sketch", "canva"]

  const SoftSkills: seq<string> := [
    "leadership", "teamwork", "communication", "problem solving", "project management",
    "agile", "scrum", "kanban", "analytical thinking", "creativity"]

  /** The whole taxonomy the extractor scans, category after category. */
  const SkillsDatabase: seq<string> :=
    ProgrammingLanguages + FrontendTechnologies + BackendTechnologies + Databases
    + CloudAndDevOps + ToolsAndOthers + SoftSkills

  // ---------------------------------------------------------------------
  // Skill extraction
  // ---------------------------------------------------------------------

  /**
   * What the scan has collected after visiting the phrases of `taxonomy`
   * in order: a phrase is appended when the (already lower-cased) text
   * contains it lower-cased and it has not been collected before.
   */
  function FoundSkills(taxonomy: seq<string>, lowerText: string): (r: seq<string>)
    ensures |r| <= |taxonomy|
    ensures forall s :: s in r ==> s in taxonomy
  {
    if taxonomy == [] then []
    else
      var found := FoundSkills(taxonomy[..|taxonomy| - 1], lowerText);
      var skill := taxonomy[|taxonomy| - 1];
      if Includes(lowerText, Lower(skill)) && skill !in found then found + [skill] else found
  }

  /** The skills found in a résumé text. */
  function ExtractedSkills(text: string): (r: seq<string>)
    ensures forall s :: s in r ==> s in SkillsDatabase
    ensures Distinct(r)
  {
    FoundSkillsDistinct(SkillsDatabase, Lower(text));
    FoundSkills(SkillsDatabase, Lower(text))
  }

  /** The extractor: one pass over the taxonomy, pushing each new phrase the text contains. */
  method ExtractSkillsFromText(text: string) returns (foundSkills: seq<string>)
    ensures foundSkills == ExtractedSkills(text)
  {
    var skillsDatabase := SkillsDatabase;
    foundSkills := [];
    var lowerText := Lower(text);
    var i := 0;
    while i < |skillsDatabase|
      invariant 0 <= i <= |skillsDatabase|
      invariant foundSkills == FoundSkills(skillsDatabase[..i], lowerText)
    {
      var skill := skillsDatabase[i];
      assert skillsDatabase[..i + 1][..i] == skillsDatabase[..i];
      if Includes(lowerText, Lower(skill)) {
        if skill !in foundSkills {
          foundSkills := foundSkills + [skill];
        }
      }
      i := i + 1;
    }
    assert skillsDatabase[..i] == skillsDatabase;
  }

  /** A phrase is reported exactly when it is in the taxonomy and the text contains it. */
  lemma {:induction false} FoundSkillsMembers(taxonomy: seq<string>, lowerText: string, s: string)
    ensures s in FoundSkills(taxonomy, lowerText) <==> s in taxonomy && Includes(lowerText, Lower(s))
  {
    if taxonomy != [] {
      var init := taxonomy[..|taxonomy| - 1];
      FoundSkillsMembers(init, lowerText, s);
      assert taxonomy == init + [taxonomy[|taxonomy| - 1]];
    }
  }

  /** No element occurs twice. */
  predicate Distinct(s: seq<string>) {
    forall i, j :: 0 <= i < j < |s| ==> s[i] != s[j]
  }

  /** No phrase is reported twice. */
  lemma {:induction false} FoundSkillsDistinct(taxonomy: seq<string>, lowerText: string)
    ensures Distinct(FoundSkills(taxonomy, lowerText))
  {
    if taxonomy != [] {
      var init := taxonomy[..|taxonomy| - 1];
      var found := FoundSkills(init, lowerText);
      var r := FoundSkills(taxonomy, lowerText);
      var skill := taxonomy[|taxonomy| - 1];
      FoundSkillsDistinct(init, lowerText);
      assert r == if Includes(lowerText, Lower(skill)) && skill !in found then found + [skill] else found;
      if r != found {
        forall i, j | 0 <= i < j < |r| ensures r[i] != r[j] {
          assert r[i] == found[i];
          if j == |found| {
            assert r[i] in found && r[j] == skill;
          } else {
            assert r[j] == found[j];
          }
        }
      }
    }
  }

  /** Position of the first occurrence of `x` in `s`. */
  function FirstIndex(s: seq<string>, x: string): (i: nat)
    requires x in s
    ensures i < |s| && s[i] == x
    ensures forall j :: 0 <= j < i ==> s[j] != x
  {
    if s[0] == x then 0 else 1 + FirstIndex(s[1..], x)
  }

  /** A prefix containing `x` already holds its first occurrence. */
  lemma {:induction false} FirstIndexPrefix(s: seq<string>, n: nat, x: string)
    requires n <= |s| && x in s[..n]
    ensures FirstIndex(s, x) == FirstIndex(s[..n], x)
  {
    var i := FirstIndex(s[..n], x);
    var k := FirstIndex(s, x);
    assert s[i] == x;
    assert k <= i;
    assert s[..n][k] == x;
  }

  /** Every element of `r` is in `taxonomy`, and they come in the order of their first occurrences there. */
  predicate InTaxonomyOrder(r: seq<string>, taxonomy: seq<string>) {
    forall i, j :: 0 <= i < j < |r| ==>
      r[i] in taxonomy && r[j] in taxonomy && FirstIndex(taxonomy, r[i]) < FirstIndex(taxonomy, r[j])
  }

  /**
   * The report follows the taxonomy's order, not the order in which the
   * phrases appear in the text.
   */
  lemma {:induction false} FoundSkillsInTaxonomyOrder(taxonomy: seq<string>, lowerText: string)
    ensures InTaxonomyOrder(FoundSkills(taxonomy, lowerText), taxonomy)
  {
    if taxonomy != [] {
      var n := |taxonomy| - 1;
      var init := taxonomy[..n];
      var found := FoundSkills(init, lowerText);
      var skill := taxonomy[n];
      var r := FoundSkills(taxonomy, lowerText);
      FoundSkillsInTaxonomyOrder(init, lowerText);
      forall x | x in found ensures x in init && FirstIndex(taxonomy, x) == FirstIndex(init, x) {
        FirstIndexPrefix(taxonomy, n, x);
      }
      assert r == if Includes(lowerText, Lower(skill)) && skill !in found then found + [skill] else found;
      forall i, j | 0 <= i < j < |r|
        ensures r[i] in taxonomy && r[j] in taxonomy && FirstIndex(taxonomy, r[i]) < FirstIndex(taxonomy, r[j])
      {
        assert r[i] == found[i] && r[i] in found && r[i] in init;
        if j < |found| {
          assert r[j] == found[j] && r[j] in found;
        } else {
          assert r[j] == skill && skill !in found;
          FoundSkillsMembers(init, lowerText, skill);
          assert skill !in init;
          assert FirstIndex(taxonomy, skill) == n;
          assert FirstIndex(init, r[i]) < n;
        }
      }
    }
  }

  /** Nothing is found in a text too short to contain any phrase, in particular in the empty text. */
  lemma {:induction false} FoundSkillsInEmptyText(taxonomy: seq<string>)
    requires forall s :: s in taxonomy ==> s != ""
    ensures FoundSkills(taxonomy, "") == []
  {
    if taxonomy != [] {
      var init := taxonomy[..|taxonomy| - 1];
      var skill := taxonomy[|taxonomy| - 1];
      assert skill in taxonomy;
      forall s | s in init ensures s != "" {
        assert s in taxonomy;
      }
      FoundSkillsInEmptyText(init);
    }
  }

  /** No phrase of `c` is the empty string. */
  predicate NoEmptyPhrase(c: seq<string>) {
    forall i :: 0 <= i < |c| ==> |c[i]| > 0
  }

  lemma NoEmptyPhraseConcat(a: seq<string>, b: seq<string>)
    requires NoEmptyPhrase(a) && NoEmptyPhrase(b)
    ensures NoEmptyPhrase(a + b)
  {
    forall i | 0 <= i < |a + b| ensures |(a + b)[i]| > 0 {
      if i >= |a| {
        assert (a + b)[i] == b[i - |a|];
      }
    }
  }

  /** Every phrase of the taxonomy is non-empty. */
  lemma TaxonomyPhrasesNonEmpty()
    ensures forall s :: s in SkillsDatabase ==> s != ""
  {
    assert NoEmptyPhrase(ProgrammingLanguages);
    assert NoEmptyPhrase(FrontendTechnologies);
    assert NoEmptyPhrase(BackendTechnologies);
    assert NoEmptyPhrase(Databases);
    assert NoEmptyPhrase(CloudAndDevOps);
    assert NoEmptyPhrase(ToolsAndOthers);
    assert NoEmptyPhrase(SoftSkills);
    NoEmptyPhraseConcat(ProgrammingLanguages, FrontendTechnologies);
    NoEmptyPhraseConcat(ProgrammingLanguages + FrontendTechnologies, BackendTechnologies);
    NoEmptyPhraseConcat(ProgrammingLanguages + FrontendTechnologies + BackendTechnologies, Databases);
    NoEmptyPhraseConcat(ProgrammingLanguages + FrontendTechnologies + BackendTechnologies + Databases, CloudAndDevOps);
    NoEmptyPhraseConcat(ProgrammingLanguages + FrontendTechnologies + BackendTechnologies + Databases
                        + CloudAndDevOps, ToolsAndOthers);
    NoEmptyPhraseConcat(ProgrammingLanguages + FrontendTechnologies + BackendTechnologies + Databases
                        + CloudAndDevOps + ToolsAndOthers, SoftSkills);
    forall s | s in SkillsDatabase ensures s != "" {
      var i :| 0 <= i < |SkillsDatabase| && SkillsDatabase[i] == s;
      assert |SkillsDatabase[i]| > 0;
    }
  }

  /** An empty text yields no skills. */
  lemma ExtractedFromEmptyText()
    ensures ExtractedSkills("") == []
  {
    TaxonomyPhrasesNonEmpty();
    FoundSkillsInEmptyText(SkillsDatabase);
    assert Lower("") == "";
  }

  /** The search ignores ASCII case: a text and its lower-cased form give the same skills. */
  lemma ExtractionIgnoresCase(text: string)
    ensures ExtractedSkills(Lower(text)) == ExtractedSkills(text)
  {
    LowerIdempotent(text);
  }

  /** Every extracted skill is a phrase of the taxonomy that the lower-cased text contains. */
  lemma ExtractedSkillsMembers(text: string, s: string)
    ensures s in ExtractedSkills(text) <==> s in SkillsDatabase && Includes(Lower(text), Lower(s))
  {
    FoundSkillsMembers(SkillsDatabase, Lower(text), s);
  }

  lemma MongoNames()
    ensures Includes(Lower("MongoDB"), Lower("go")) && Includes(Lower("MongoDB"), Lower("mongodb"))
  {
    var t := Lower("MongoDB");
    assert t == "mongodb";
    LowerUnchanged("go");
    LowerUnchanged("mongodb");
    OccursIncludes(t, "go", 3);
    IncludesSelf(t);
  }

  lemma JavaScriptNames()
    ensures Includes(Lower("JavaScript"), Lower("java")) && Includes(Lower("JavaScript"), Lower("javascript"))
  {
    var t := Lower("JavaScript");
    assert t == "javascript";
    LowerUnchanged("java");
    LowerUnchanged("javascript");
    OccursIncludes(t, "java", 0);
    IncludesSelf(t);
  }

  /** "MongoDB" yields "go" as well as "mongodb": the search is by substring. */
  lemma SubstringExamples()
    ensures "go" in ExtractedSkills("MongoDB") && "mongodb" in ExtractedSkills("MongoDB")
  {
    MongoNames();
    InTaxonomy();
    ExtractedSkillsMembers("MongoDB", "go");
    ExtractedSkillsMembers("MongoDB", "mongodb");
  }

  /** "JavaScript" yields "java" as well as "javascript". */
  lemma SubstringExamplesJava()
    ensures "java" in ExtractedSkills("JavaScript") && "javascript" in ExtractedSkills("JavaScript")
  {
    JavaScriptNames();
    InTaxonomy();
    ExtractedSkillsMembers("JavaScript", "java");
    ExtractedSkillsMembers("JavaScript", "javascript");
  }

  lemma InTaxonomy()
    ensures "go" in SkillsDatabase && "mongodb" in SkillsDatabase
    ensures "java" in SkillsDatabase && "javascript" in SkillsDatabase
    ensures "node.js" in SkillsDatabase
  {
    assert ProgrammingLanguages[7] == "go" && Databases[0] == "mongodb";
    assert ProgrammingLanguages[2] == "java" && ProgrammingLanguages[0] == "javascript";
    assert BackendTechnologies[0] == "node.js";
  }

  const Sentence := "Built APIs with Node.js and MongoDB"
  const LowerSentence := "built apis with node.js and mongodb"

  lemma SentenceLowered()
    ensures Lower(Sentence) == LowerSentence
  {
    assert forall i :: 0 <= i < |Sentence| ==> Lower(Sentence)[i] == LowerSentence[i];
  }

  lemma SentenceNamesNode()
    ensures Includes(LowerSentence, Lower("node.js"))
  {
    LowerUnchanged("node.js");
    OccursIncludes(LowerSentence, "node.js", 16);
  }

  lemma SentenceNamesMongo()
    ensures Includes(LowerSentence, Lower("mongodb"))
  {
    LowerUnchanged("mongodb");
    OccursIncludes(LowerSentence, "mongodb", 28);
  }

  lemma SentenceLacksRust()
    ensures !Includes(LowerSentence, Lower("rust"))
  {
    LowerUnchanged("rust");
    assert forall i :: 0 <= i < |LowerSentence| ==> LowerSentence[i] != 'r';
    NotIncludesWithoutHead(LowerSentence, "rust");
  }

  /** A sentence naming two technologies reports both, and not a phrase it lacks. */
  lemma SentenceExample()
    ensures var skills := ExtractedSkills(Sentence);
      "node.js" in skills && "mongodb" in skills && "rust" !in skills
  {
    SentenceLowered();
    SentenceNamesNode();
    SentenceNamesMongo();
    SentenceLacksRust();
    InTaxonomy();
    ExtractedSkillsMembers(Sentence, "node.js");
    ExtractedSkillsMembers(Sentence, "mongodb");
    ExtractedSkillsMembers(Sentence, "rust");
  }

  // ---------------------------------------------------------------------
  // Upload handling
  // ---------------------------------------------------------------------

  const PdfType := "application/pdf"
  const MsWordType := "application/msword"
  const WordprocessingPart := "wordprocessingml.document"
  const DocxType := "application/vnd.openxmlformats-officedocument." + WordprocessingPart

  /** The MIME types the upload filter lets through. */
  const AllowedTypes: seq<string> := [PdfType, MsWordType, DocxType]

  const RejectedUpload := "Only PDF and Word documents are allowed!"

  datatype FilterDecision = Accept | Reject(message: string)

  /** The upload filter: an allow-list of MIME types. */
  function FileFilter(mimetype: string): (r: FilterDecision)
    ensures r.Accept? <==> mimetype == PdfType || mimetype == MsWordType || mimetype == DocxType
    ensures r.Reject? ==> r.message == RejectedUpload
  {
    if mimetype in AllowedTypes then Accept else Reject(RejectedUpload)
  }

  /** Which decoder produces the text of an upload. */
  datatype TextSource = PdfText | WordText | NoText

  /** PDF by exact type, Word for any type mentioning "word", otherwise no text at all. */
  function ExtractionBranch(fileType: string): (b: TextSource)
    ensures b == PdfText <==> fileType == PdfType
    ensures b == WordText <==> fileType != PdfType && Includes(fileType, "word")
  {
    if fileType == PdfType then PdfText
    else if Includes(fileType, "word") then WordText
    else NoText
  }

  /** Every accepted upload reaches a decoder: PDF goes to the PDF decoder, both Word types to the Word one. */
  lemma AcceptedUploadsAreDecoded(mimetype: string)
    requires FileFilter(mimetype) == Accept
    ensures ExtractionBranch(mimetype) == (if mimetype == PdfType then PdfText else WordText)
  {
    if mimetype == MsWordType {
      OccursIncludes(MsWordType, "word", 14);
    } else if mimetype == DocxType {
      assert "word" <= WordprocessingPart;
      IncludesInSuffix("application/vnd.openxmlformats-officedocument.", WordprocessingPart, "word");
    }
  }

  /** A file as the upload middleware describes it. */
  datatype UploadedFile = UploadedFile(originalname: string, mimetype: string, size: nat)

  datatype UploadSummary = UploadSummary(
    fileName: string,
    fileSize: nat,
    skills: seq<string>,
    textLength: nat,
    preview: string)

  datatype UploadError =
    | NoFileUploaded(message: string)       // answered with status 400
    | ProcessingFailed(message: string, error: string)  // answered with status 500

  const PreviewLength := 200

  /** The first (up to) 200 characters of the text, followed by an ellipsis. */
  function Preview(text: string): (r: string)
    ensures |text| <= PreviewLength ==> r == text + "..."
    ensures |text| > PreviewLength ==> |r| == PreviewLength + 3 && r[..PreviewLength] == text[..PreviewLength]
    ensures r[|r| - 3..] == "..."
  {
    (if |text| <= PreviewLength then text else text[..PreviewLength]) + "..."
  }

  /** The message a decoder failure is reported with. */
  function DecoderErrorPrefix(source: TextSource): (p: string)
    ensures p == "" <==> source == NoText
  {
    match source
    case PdfText => "Failed to extract text from PDF: "
    case WordText => "Failed to extract text from Word document: "
    case NoText => ""
  }

  /**
   * The upload handler. `decoded` is what the decoder chosen by the MIME type
   * returns, the text or an error message; it is not consulted when no decoder
   * is chosen, and the text is then empty.
   */
  function ProcessUpload(file: Option<UploadedFile>, decoded: Result<string, string>): (r: Result<UploadSummary, UploadError>)
    ensures file.None? ==> r == Failure(NoFileUploaded("No file uploaded"))
    ensures file.Some? && ExtractionBranch(file.value.mimetype) != NoText && decoded.Failure? ==>
      r.Failure? && r.error.ProcessingFailed? && r.error.message == "Failed to process resume" &&
      r.error.error == DecoderErrorPrefix(ExtractionBranch(file.value.mimetype)) + decoded.error
    ensures file.Some? && (ExtractionBranch(file.value.mimetype) == NoText || decoded.Success?) ==> r.Success?
    ensures r.Success? ==> file.Some? && r.value.fileName == file.value.originalname && r.value.fileSize == file.value.size
    ensures r.Success? && ExtractionBranch(file.value.mimetype) == NoText ==>
      r.value.skills == [] && r.value.textLength == 0 && r.value.preview == "..."
    ensures r.Success? && ExtractionBranch(file.value.mimetype) != NoText ==>
      decoded.Success? && r.value.textLength == |decoded.value| && r.value.skills == ExtractedSkills(decoded.value)
      && r.value.preview == Preview(decoded.value)
  {
    match file
    case None => Failure(NoFileUploaded("No file uploaded"))
    case Some(f) =>
      var source := ExtractionBranch(f.mimetype);
      if source != NoText && decoded.Failure? then
        Failure(ProcessingFailed("Failed to process resume", DecoderErrorPrefix(source) + decoded.error))
      else
        var extractedText := if source == NoText then "" else decoded.value;
        ExtractedFromEmptyText();
        Success(UploadSummary(f.originalname, f.size, ExtractedSkills(extractedText), |extractedText|, Preview(extractedText)))
  }
}
