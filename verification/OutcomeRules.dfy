/** What outcome capture makes of one committed event: nothing, a Memory, or an error that stops the pass. */
module OutcomeRules {
  import opened Wrappers
  import opened Text

  datatype Kind = Task | Source | Note
  datatype Status = InReview | Done | OtherStatus(name: string)

  /** What capture looks at in one ledger row: the Object after the event, and the task's brief and status before it. */
  datatype Event = Event(
    id: nat, at: int, created: bool, kind: Kind, title: string, source: string,
    status: Option<Status>, brief: Option<string>, priorStatus: Option<Status>, prior: string)

  /** Whether the target is still there, who acted, the character rules, and the description rules not spelled out
      here. */
  datatype World = World(
    active: Event -> bool, actor: Event -> string,
    white: char -> bool, lower: char -> string, otherRules: (string, string) -> bool)

  // ----- task milestones -----

  datatype Milestone = EvidenceRecorded | SubmittedForReview | CompletionRecorded

  const HTTPS: string := "https://"
  const HTTP: string := "http://"

  predicate Linking(word: string) {
    Substring(word, HTTPS) || Substring(word, HTTP)
  }

  /** Some word of the brief holds a link and does not occur in the prior brief. */
  predicate NewReference(white: char -> bool, brief: string, prior: string) {
    var words := WordsFrom(white, brief, 0);
    exists k :: 0 <= k < |words| && Linking(words[k]) && !Substring(prior, words[k])
  }

  function TaskMilestone(w: World, e: Event): Option<Milestone> {
    if e.kind != Task || e.created || e.status.None? || e.brief.None? then None
    else if !NewReference(w.white, e.brief.value, e.prior) then None
    else
      var same := e.priorStatus == e.status;
      match e.status.value
      case InReview => Some(if same then EvidenceRecorded else SubmittedForReview)
      case Done => Some(if same then EvidenceRecorded else CompletionRecorded)
      case OtherStatus(_) => None
  }

  predicate HoldsLink(word: string) {
    Substring(word, "http://") || Substring(word, "https://")
  }

  /** An edited task in review or done is a milestone exactly when its brief has a longest run of characters without
      white space that holds a link and is nowhere in the prior brief. */
  lemma MilestoneIff(w: World, e: Event)
    ensures TaskMilestone(w, e).Some? <==>
            && e.kind == Task && !e.created && (e.status == Some(InReview) || e.status == Some(Done)) && e.brief.Some?
            && exists a: nat, b: nat :: IsWord(w.white, e.brief.value, a, b) && HoldsLink(e.brief.value[a..b])
                                     && !Substring(e.prior, e.brief.value[a..b])
  {
    forall word ensures Linking(word) <==> HoldsLink(word) {
    }
    if e.brief.Some? { NewReferenceIff(w.white, e.brief.value, e.prior); }
  }

  lemma NewReferenceIff(white: char -> bool, brief: string, prior: string)
    ensures NewReference(white, brief, prior) <==>
            exists a: nat, b: nat :: IsWord(white, brief, a, b) && Linking(brief[a..b])
                && !Substring(prior, brief[a..b])
  {
    hide Linking, Substring, WordsFrom;
    var words := WordsFrom(white, brief, 0);
    if NewReference(white, brief, prior) {
      var k :| 0 <= k < |words| && Linking(words[k]) && !Substring(prior, words[k]);
      WordsAreRuns(white, brief, 0, words[k]);
    }
    forall a: nat, b: nat | IsWord(white, brief, a, b) && Linking(brief[a..b]) && !Substring(prior, brief[a..b])
      ensures NewReference(white, brief, prior)
    {
      WordsAreRuns(white, brief, 0, brief[a..b]);
      var k :| 0 <= k < |words| && words[k] == brief[a..b];
    }
  }

  /** A brief that was there before, alone or within a longer one, is never a milestone. */
  lemma KnownBriefIsNone(w: World, e: Event)
    requires e.brief.Some? && Substring(e.prior, e.brief.value)
    ensures TaskMilestone(w, e).None?
  {
    hide Linking, Substring;
    MilestoneIff(w, e);
    var brief := e.brief.value;
    forall a: nat, b: nat | IsWord(w.white, brief, a, b) ensures Substring(e.prior, brief[a..b]) {
      RunIsSubstring(w.white, brief, a, b);
      SubstringTrans(e.prior, brief, brief[a..b]);
    }
  }

  lemma RunIsSubstring(white: char -> bool, s: string, a: nat, b: nat)
    requires IsWord(white, s, a, b)
    ensures Substring(s, s[a..b])
  {
    assert OccursAt(s, s[a..b], a);
  }

  // ----- real activity -----

  const SYNTHETIC_TITLES: seq<string> := ["test ", "test:", "synthetic ", "fixture "]
  const SYNTHETIC_SOURCES: seq<string> := ["test", "fixture", "import", "migration"]

  predicate Eligible(w: World, e: Event) {
    var title := Lower(w.lower, Trim(w.white, e.title));
    && title != "" && (forall p :: p in SYNTHETIC_TITLES ==> !(p <= title))
    && forall v :: v in SYNTHETIC_SOURCES ==> !Substring(Lower(w.lower, e.source), v)
  }

  // ----- the Memory's wording -----

  function KindName(kind: Kind): string {
    match kind case Task => "task" case Source => "source" case Note => "note"
  }

  function Verb(m: Milestone): string {
    match m
    case EvidenceRecorded => "recorded new result evidence for the task"
    case SubmittedForReview => "submitted for review the task"
    case CompletionRecorded => "recorded completion of the task"
  }

  function Label(m: Milestone): string {
    match m
    case EvidenceRecorded => "Result evidence recorded"
    case SubmittedForReview => "Submitted for review"
    case CompletionRecorded => "Completion recorded"
  }

  function Opening(w: World, e: Event): string {
    match TaskMilestone(w, e)
    case Some(m) => w.actor(e) + " " + Verb(m) + ": "
    case None => w.actor(e) + (if e.kind == Task then " created" else " added") + " a " + KindName(e.kind) + ": "
  }

  function Description(w: World, e: Event): string {
    Opening(w, e) + e.title + "."
  }

  function MemoryTitle(w: World, e: Event): string {
    (match TaskMilestone(w, e) case Some(m) => Label(m) case None => "Added")
    + ": " + (if |e.title| <= 260 then e.title else e.title[..260])
  }

  const MODEL_GENERATED: string := "the model generated"
  const GENERATED_DESCRIPTION: string := "generated description"

  /** Words a description must not contain. */
  predicate Commentary(text: string) {
    Substring(text, MODEL_GENERATED) || Substring(text, GENERATED_DESCRIPTION)
  }

  predicate Describable(w: World, e: Event) {
    var text := Trim(w.white, Description(w, e));
    !Commentary(Lower(w.lower, text)) && w.otherRules(MemoryTitle(w, e), text)
  }

  datatype Verdict = Skip | Remember | Refuse

  function Judge(w: World, e: Event): Verdict {
    if !w.active(e) || !Eligible(w, e) || (!e.created && TaskMilestone(w, e).None?) then Skip
    else if Describable(w, e) then Remember
    else Refuse
  }

  // ----- the verdict, spelled out -----

  /** Not somebody's real activity, by title or source: white space around the title and capitals aside. */
  predicate Synthetic(w: World, e: Event) {
    var title, source := Lower(w.lower, Trim(w.white, e.title)), Lower(w.lower, e.source);
    || title == "" || "test " <= title || "test:" <= title || "synthetic " <= title || "fixture " <= title
    || Substring(source, "test") || Substring(source, "fixture") || Substring(source, "import")
    || Substring(source, "migration")
  }

  lemma SyntheticIff(w: World, e: Event)
    ensures Eligible(w, e) <==> !Synthetic(w, e)
  {
    hide Substring, Lower, Trim;
    TitlesAre(Lower(w.lower, Trim(w.white, e.title)));
    SourcesAre(Lower(w.lower, e.source));
    hide SYNTHETIC_TITLES, SYNTHETIC_SOURCES;
  }

  lemma TitlesAre(title: string)
    ensures (forall p :: p in SYNTHETIC_TITLES ==> !(p <= title)) <==>
            !("test " <= title || "test:" <= title || "synthetic " <= title || "fixture " <= title)
  {
    var s := SYNTHETIC_TITLES;
    assert s[0] == "test " && s[1] == "test:" && s[2] == "synthetic " && s[3] == "fixture " && |s| == 4;
    FourPrefixes(s, title);
  }

  lemma FourPrefixes(s: seq<string>, title: string)
    requires |s| == 4
    ensures (forall p :: p in s ==> !(p <= title)) <==>
            !(s[0] <= title || s[1] <= title || s[2] <= title || s[3] <= title)
  {
    assert s[0] in s && s[1] in s && s[2] in s && s[3] in s;
    assert forall p :: p in s ==> p == s[0] || p == s[1] || p == s[2] || p == s[3];
  }

  lemma SourcesAre(source: string)
    ensures (forall v :: v in SYNTHETIC_SOURCES ==> !Substring(source, v)) <==>
            !(Substring(source, "test") || Substring(source, "fixture") || Substring(source, "import")
              || Substring(source, "migration"))
  {
    hide Substring;
    var s := SYNTHETIC_SOURCES;
    assert s[0] == "test" && s[1] == "fixture" && s[2] == "import" && s[3] == "migration";
    assert forall v :: v in s <==> v == s[0] || v == s[1] || v == s[2] || v == s[3];
  }

  /** A task's brief got a new link while it was in review or done: see MilestoneIff. */
  predicate Edited(w: World, e: Event) {
    TaskMilestone(w, e).Some?
  }

  /** What a milestone is called: new evidence if the status stayed, else what the status says. */
  lemma MilestoneIs(w: World, e: Event)
    requires Edited(w, e)
    ensures TaskMilestone(w, e).value ==
            if e.priorStatus == e.status then EvidenceRecorded
            else if e.status == Some(InReview) then SubmittedForReview else CompletionRecorded
  {
  }

  /** The sentence a Memory would say. */
  function Sentence(w: World, e: Event): string {
    if Edited(w, e) then
      w.actor(e) + " "
      + (if e.priorStatus == e.status then "recorded new result evidence for the task"
         else if e.status == Some(InReview) then "submitted for review the task"
         else "recorded completion of the task") + ": " + e.title + "."
    else
      match e.kind
      case Task => w.actor(e) + " created a task: " + e.title + "."
      case Source => w.actor(e) + " added a source: " + e.title + "."
      case Note => w.actor(e) + " added a note: " + e.title + "."
  }

  lemma SentenceIs(w: World, e: Event)
    ensures Description(w, e) == Sentence(w, e)
  {
    if Edited(w, e) {
      MilestoneIs(w, e);
      hide TaskMilestone;
    } else {
      hide TaskMilestone;
      AddSentence(w.actor(e), e.title);
    }
  }

  lemma AddSentence(actor: string, title: string)
    ensures actor + " created" + " a " + KindName(Task) + ": " + title + "." == actor + " created a task: " + title
        + "."
    ensures actor + " added" + " a " + KindName(Source) + ": " + title + "." == actor + " added a source: " + title
        + "."
    ensures actor + " added" + " a " + KindName(Note) + ": " + title + "." == actor + " added a note: " + title + "."
  {
    Joins(actor, " created", " a ", "task: ");
    Joins(actor, " added", " a ", "source: ");
    Joins(actor, " added", " a ", "note: ");
    Joins(actor + " created" + " a ", "task", ": ", "");
    Joins(actor + " added" + " a ", "source", ": ", "");
    Joins(actor + " added" + " a ", "note", ": ", "");
    assert "task" + ": " + "" == "task: " && "source" + ": " + "" == "source: " && "note" + ": " + "" == "note: ";
    assert " created" + " a " + "task: " == " created a task: ";
    assert " added" + " a " + "source: " == " added a source: ";
    assert " added" + " a " + "note: " == " added a note: ";
  }

  lemma Joins(a: string, b: string, c: string, d: string)
    ensures a + b + c + d == a + (b + c + d)
  {
  }

  /** Main theorem on one event. It is passed over when its target is gone, it is synthetic, or it is an edit that is no
      milestone. Otherwise it is remembered exactly when the sentence about it holds neither forbidden phrase and meets
      the other rules; else it stops the pass. */
  lemma JudgeIff(w: World, e: Event)
    ensures Judge(w, e) == Skip <==> !w.active(e) || Synthetic(w, e) || (!e.created && !Edited(w, e))
    ensures var text := Trim(w.white, Sentence(w, e));
      Judge(w, e) == Remember <==>
      && Judge(w, e) != Skip && w.otherRules(MemoryTitle(w, e), text)
      && !Substring(Lower(w.lower, text), "the model generated")
      && !Substring(Lower(w.lower, text), "generated description")
  {
    SyntheticIff(w, e);
    SentenceIs(w, e);
    hide Substring, Lower, Trim, TaskMilestone, Sentence, Description, Eligible, Synthetic, MemoryTitle;
  }

  /** The title a Memory would have: what happened, and the first 260 characters of the event's title. */
  lemma TitleIs(w: World, e: Event)
    ensures MemoryTitle(w, e) ==
      (if !Edited(w, e) then "Added: "
       else if e.priorStatus == e.status then "Result evidence recorded: "
       else if e.status == Some(InReview) then "Submitted for review: " else "Completion recorded: ")
      + if |e.title| > 260 then e.title[..260] else e.title
  {
    hide NewReference;
    if Edited(w, e) { MilestoneIs(w, e); }
  }

  // ----- titles that cannot be described -----

  /** Small letters and blanks are what they are, and only blanks among them are white space. */
  ghost predicate Ordinary(w: World) {
    && (forall c :: ('a' <= c <= 'z' || c == ' ') ==> w.lower(c) == [c])
    && (forall c :: 'a' <= c <= 'z' ==> !w.white(c))
  }

  predicate Letters(s: string) {
    && s != "" && 'a' <= s[0] <= 'z' && 'a' <= s[|s| - 1] <= 'z'
    && forall i :: 0 <= i < |s| ==> 'a' <= s[i] <= 'z' || s[i] == ' '
  }

  lemma MarkersAreLetters()
    ensures Letters(MODEL_GENERATED) && Letters(GENERATED_DESCRIPTION)
  {
  }

  lemma {:induction false} TrimStartKeeps(white: char -> bool, s: string, t: string)
    requires t != "" && !white(t[0]) && Substring(s, t)
    ensures Substring(TrimStart(white, s), t)
  {
    var i :| 0 <= i <= |s| && OccursAt(s, t, i);
    assert s[i] == s[i..i + |t|][0];
    if white(s[0]) {
      assert s[1..][i - 1..i - 1 + |t|] == s[i..i + |t|];
      assert OccursAt(s[1..], t, i - 1);
      TrimStartKeeps(white, s[1..], t);
    } else {
      assert TrimStart(white, s) == s;
    }
  }

  lemma {:induction false} TrimEndKeeps(white: char -> bool, s: string, t: string)
    requires t != "" && !white(t[|t| - 1]) && Substring(s, t)
    ensures Substring(TrimEnd(white, s), t)
  {
    var n := |s| - 1;
    assert s != "" by { assert exists i :: 0 <= i <= |s| && OccursAt(s, t, i); }
    if white(s[n]) {
      LastDropped(white, s, t);
      hide Substring;
      TrimEndKeeps(white, s[..n], t);
    } else {
      assert TrimEnd(white, s) == s;
    }
  }

  lemma LastDropped(white: char -> bool, s: string, t: string)
    requires t != "" && !white(t[|t| - 1]) && Substring(s, t) && s != "" && white(s[|s| - 1])
    ensures Substring(s[..|s| - 1], t)
  {
    var i :| 0 <= i <= |s| && OccursAt(s, t, i);
    var n := |s| - 1;
    assert s[i + |t| - 1] == s[i..i + |t|][|t| - 1];
    assert s[..n][i..i + |t|] == s[i..i + |t|];
    assert OccursAt(s[..n], t, i);
  }

  /** Whatever else it says, an event whose title contains one of the forbidden phrases is refused. */
  lemma CommentaryRefused(w: World, e: Event)
    requires Ordinary(w) && w.active(e) && Eligible(w, e) && (e.created || TaskMilestone(w, e).Some?)
    requires Substring(e.title, MODEL_GENERATED) || Substring(e.title, GENERATED_DESCRIPTION)
    ensures Judge(w, e) == Refuse
  {
    MarkersAreLetters();
    hide Substring, MODEL_GENERATED, GENERATED_DESCRIPTION, Eligible, TaskMilestone, Opening;
    var phrase := if Substring(e.title, MODEL_GENERATED) then MODEL_GENERATED else GENERATED_DESCRIPTION;
    var text := Description(w, e);
    SubstringAt(text, Opening(w, e), e.title, ".");
    SubstringTrans(text, e.title, phrase);
    TrimStartKeeps(w.white, text, phrase);
    TrimEndKeeps(w.white, TrimStart(w.white, text), phrase);
    LowerSubstring(w.lower, Trim(w.white, text), phrase);
  }

  /** A note somebody might well write. */
  const AWKWARD_TITLE: string := "check what " + MODEL_GENERATED
  const AWKWARD: Event := Event(1, 0, true, Note, AWKWARD_TITLE, "", None, None, None, "")

  lemma AwkwardRefused(w: World)
    requires Ordinary(w) && w.active(AWKWARD)
    ensures Judge(w, AWKWARD) == Refuse
  {
    AwkwardEligible(w);
    hide Substring, MODEL_GENERATED, Eligible, Ordinary, Judge;
    assert AWKWARD_TITLE == "check what " + MODEL_GENERATED + "";
    SubstringAt(AWKWARD_TITLE, "check what ", MODEL_GENERATED, "");
    CommentaryRefused(w, AWKWARD);
  }

  lemma AwkwardLetters()
    ensures Letters(AWKWARD_TITLE) && AWKWARD_TITLE[0] == 'c'
  {
    MarkersAreLetters();
    hide MODEL_GENERATED;
    assert Letters("check what m");
    assert forall i :: 0 <= i < |AWKWARD_TITLE| ==>
             AWKWARD_TITLE[i] == if i < 11 then "check what "[i] else MODEL_GENERATED[i - 11];
  }

  lemma AwkwardEligible(w: World)
    requires Ordinary(w)
    ensures Eligible(w, AWKWARD)
  {
    AwkwardLetters();
    hide AWKWARD_TITLE, TrimStart, TrimEnd;
    assert Trim(w.white, AWKWARD_TITLE) == AWKWARD_TITLE;
    LowerSame(w.lower, AWKWARD_TITLE);
    hide Letters, Lower;
    forall p | p in SYNTHETIC_TITLES ensures !(p <= AWKWARD_TITLE) { assert p[0] != 'c'; }
    NoText(w.lower);
    forall v | v in SYNTHETIC_SOURCES ensures !Substring("", v) { assert v != ""; }
  }

  lemma NoText(one: char -> string)
    ensures Lower(one, "") == ""
  {
  }
}
