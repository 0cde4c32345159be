/**
 * The three-step upload wizard `ProjectUploadModalTwo`
 * (src/common/Model/UploadFileTwo.tsx): step 1 takes files and a trade and
 * uploads the first PDF, step 2 takes a page and streams its processing,
 * step 3 shows the result and lets another page be processed.
 *
 * Each `async` handler is split at its `await`: a `Begin…` method runs the
 * guards and the synchronous updates and hands out the job it awaits, and a
 * `Complete…` method runs the continuation when the environment delivers
 * the job's outcome. Ghost tickets record which jobs are outstanding and in
 * which session (the time between two closes) they began.
 */
module UploadWizard {
  import opened Wrappers
  import opened ApiService

  // ---------------------------------------------------------------------------
  // Entities
  // ---------------------------------------------------------------------------

  /** A file taken in by the picker or by drag and drop (its handle is left out). */
  datatype UploadedFile = UploadedFile(name: string, size: int, mimeType: string)

  /** One rasterized page of the PDF. */
  datatype PdfPage = PdfPage(pageNumber: int, imageUrl: string)

  datatype TradeOption = TradeOption(id: string, name: string)

  /** The fields of an `onProgress` payload that the wizard keeps. */
  datatype Progress = Progress(percent: int, status: string, message: string)

  /** The result of processing a page (its floating-point fields are left out). */
  datatype ProcessingResult = ProcessingResult(
    fileId: string, pageNumber: int, totalTilesProcessed: int, status: string, analysis: string)

  type Step = s: int | 1 <= s <= 3 witness 1

  /** The trades offered in the dropdown, in display order. */
  const TradesOptions: seq<TradeOption> := [
    TradeOption("elec-data-security-detector", "Electrical, Data, IT, AV, Security"),
    TradeOption("mechanical-symbol-detector", "Mechanical"),
    TradeOption("fire-alarm-detector-v1", "Fire Alarm"),
    TradeOption("fire-protection-sprinkler-model", "Fire Protection, Sprinkler"),
    TradeOption("plumbing-detector", "Plumbing")
  ]

  /** The `modelTypeMap` lookup shared by the step-2 advance and the re-select from results. */
  function ModelTypeFor(tradeId: string): Option<ModelType>
  {
    if tradeId == "elec-data-security-detector" then Some(Electrical)
    else if tradeId == "mechanical-symbol-detector" then Some(Mechanical)
    else if tradeId == "fire-alarm-detector-v1" then Some(FireAlarm)
    else if tradeId == "fire-protection-sprinkler-model" then Some(FireSprinkler)
    else if tradeId == "plumbing-detector" then Some(Plumbing)
    else None
  }

  // ---------------------------------------------------------------------------
  // Pure helpers
  // ---------------------------------------------------------------------------

  /** `toLowerCase` on ASCII letters. */
  function LowerChar(c: char): char
  {
    if 'A' <= c <= 'Z' then (c as int + 32) as char else c
  }

  function ToLower(s: string): (r: string)
    ensures |r| == |s| && forall i :: 0 <= i < |s| ==> r[i] == LowerChar(s[i])
  {
    seq(|s|, i requires 0 <= i < |s| => LowerChar(s[i]))
  }

  predicate EndsWith(s: string, suffix: string)
  {
    |suffix| <= |s| && s[|s| - |suffix|..] == suffix
  }

  /** A file counts as a PDF by its MIME type or by its lower-cased extension. */
  predicate IsPdf(f: UploadedFile)
  {
    f.mimeType == "application/pdf" || EndsWith(ToLower(f.name), ".pdf")
  }

  /** `files.find(isPdf)`, as an index: the first PDF of the list, if any. */
  function FirstPdf(files: seq<UploadedFile>): (r: Option<nat>)
    ensures r.Some? ==>
      r.value < |files| && IsPdf(files[r.value]) && forall j :: 0 <= j < r.value ==> !IsPdf(files[j])
    ensures r.None? ==> forall j :: 0 <= j < |files| ==> !IsPdf(files[j])
  {
    if files == [] then None
    else if IsPdf(files[0]) then Some(0)
    else match FirstPdf(files[1..])
      case None => None
      case Some(k) => Some(k + 1)
  }

  /** `t` occurs in `s` starting at index `i`. */
  predicate OccursAt(s: string, t: string, i: int)
  {
    0 <= i && i + |t| <= |s| && s[i..i + |t|] == t
  }

  /** `s.includes(t)`. */
  function Includes(s: string, t: string): (r: bool)
    ensures r <==> exists i :: OccursAt(s, t, i)
    decreases |s|
  {
    if t <= s then
      assert OccursAt(s, t, 0);
      true
    else if |s| == 0 then
      assert forall i :: !OccursAt(s, t, i) by {
        forall i | OccursAt(s, t, i) ensures false { }
      }
      false
    else
      var r := Includes(s[1..], t);
      assert r ==> exists i :: OccursAt(s, t, i) by {
        if r {
          var i :| OccursAt(s[1..], t, i);
          assert s[1..][i..i + |t|] == s[i + 1..i + 1 + |t|];
          assert OccursAt(s, t, i + 1);
        }
      }
      assert (exists i :: OccursAt(s, t, i)) ==> r by {
        if exists i :: OccursAt(s, t, i) {
          var i :| OccursAt(s, t, i);
          assert i != 0;
          assert s[1..][i - 1..i - 1 + |t|] == s[i..i + |t|];
          assert OccursAt(s[1..], t, i - 1);
        }
      }
      r
  }

  /** The dropdown's match: the trade's name contains the query, both lower-cased. */
  predicate MatchesQuery(o: TradeOption, query: string)
  {
    Includes(ToLower(o.name), ToLower(query))
  }

  /** The options that match, in their original order. */
  function FilterTrades(options: seq<TradeOption>, query: string): (r: seq<TradeOption>)
    ensures |r| <= |options|
    ensures forall o :: o in r <==> o in options && MatchesQuery(o, query)
  {
    if options == [] then []
    else
      var rest := FilterTrades(options[1..], query);
      assert forall o :: o in options <==> o == options[0] || o in options[1..];
      if MatchesQuery(options[0], query) then [options[0]] + rest else rest
  }

  /** `filteredTrades`. */
  function FilteredTrades(query: string): seq<TradeOption>
  {
    FilterTrades(TradesOptions, query)
  }

  /** What an `await` that rejected throws: an `Error` with a message, or some other value. */
  datatype Thrown = ErrorObject(message: string) | NonError

  /** `err instanceof Error ? err.message : fallback`. */
  function CaughtMessage(t: Thrown, fallback: string): string
  {
    match t
    case ErrorObject(m) => m
    case NonError => fallback
  }

  /** How an awaited call settles. */
  datatype Outcome<T> = Succeeded(value: T) | Threw(thrown: Thrown)

  /** Work a handler awaits: an upload, a processing stream, or a page extraction. */
  datatype Job =
    | UploadJob(file: UploadedFile)
    | ProcessJob(request: ProcessPageRequest, advancesStep: bool)
    | ExtractJob(file: UploadedFile)

  /** A job begun in a given session; sessions are counted by closes. */
  datatype Ticket = Ticket(job: Job, session: nat)

  function Issued(job: Option<Job>, session: nat): multiset<Ticket>
  {
    if job.Some? then multiset{Ticket(job.value, session)} else multiset{}
  }

  /** In a conditional, `selectedPage &&`: a page number of 0 is falsy. */
  predicate PageChosen(p: Option<int>)
  {
    p.Some? && p.value != 0
  }

  /** In a conditional, `uploadedFileId &&`: an empty id is falsy. */
  predicate FileIdPresent(id: Option<string>)
  {
    id.Some? && id.value != ""
  }

  /** Every outstanding job was begun in this session or an earlier one. */
  ghost predicate TicketsIssuedBy(tickets: multiset<Ticket>, session: nat)
  {
    forall t :: t in tickets ==> t.session <= session
  }

  /** A processing job begun in this session was begun with a file id. */
  ghost predicate ProcessingHasFile(tickets: multiset<Ticket>, session: nat, hasFile: bool)
  {
    forall t :: t in tickets && t.session == session && t.job.ProcessJob? ==> hasFile
  }

  lemma IssueTicket(tickets: multiset<Ticket>, session: nat, hasFile: bool, t: Ticket)
    requires TicketsIssuedBy(tickets, session) && ProcessingHasFile(tickets, session, hasFile)
    requires t.session == session && (t.job.ProcessJob? ==> hasFile)
    ensures TicketsIssuedBy(tickets + multiset{t}, session)
    ensures ProcessingHasFile(tickets + multiset{t}, session, hasFile)
  {
  }

  lemma RetireTicket(tickets: multiset<Ticket>, session: nat, hasFile: bool, hasFile': bool, t: Ticket)
    requires TicketsIssuedBy(tickets, session) && ProcessingHasFile(tickets, session, hasFile)
    requires hasFile ==> hasFile'
    ensures TicketsIssuedBy(tickets - multiset{t}, session)
    ensures ProcessingHasFile(tickets - multiset{t}, session, hasFile')
  {
    forall u | u in tickets - multiset{t} ensures u in tickets { }
  }

  /** After a close no outstanding job belongs to the new session. */
  lemma NewSession(tickets: multiset<Ticket>, session: nat)
    requires TicketsIssuedBy(tickets, session)
    ensures TicketsIssuedBy(tickets, session + 1)
    ensures ProcessingHasFile(tickets, session + 1, false)
  {
  }

  // ---------------------------------------------------------------------------
  // Page extraction
  // ---------------------------------------------------------------------------

  /** How rendering one page turns out: an image, no 2d canvas context (page skipped), or a throw. */
  datatype PageRender = Rendered(imageUrl: string) | NoContext | RenderError

  /** A loaded PDF: its page count and how each page renders. */
  datatype PdfDocument = PdfDocument(numPages: nat, render: nat -> PageRender)

  /**
   * `extractPDFPages`: render pages 1 to `numPages` in order, skip the pages
   * without a canvas context, and return [] if loading or any page throws.
   */
  method ExtractPages(doc: Option<PdfDocument>) returns (pages: seq<PdfPage>)
    ensures doc.None? ==> pages == []
    ensures doc.Some? && (exists p :: 1 <= p <= doc.value.numPages && doc.value.render(p).RenderError?) ==>
      pages == []
    ensures doc.Some? && (forall p :: 1 <= p <= doc.value.numPages ==> !doc.value.render(p).RenderError?) ==>
      (forall i :: 0 <= i < |pages| ==>
        (1 <= pages[i].pageNumber <= doc.value.numPages
        && doc.value.render(pages[i].pageNumber) == Rendered(pages[i].imageUrl)))
      && (forall i, j :: 0 <= i < j < |pages| ==> pages[i].pageNumber < pages[j].pageNumber)
      && (forall p :: 1 <= p <= doc.value.numPages && doc.value.render(p).Rendered? ==>
        exists i :: 0 <= i < |pages| && pages[i].pageNumber == p)
  {
    if doc.None? {
      return [];
    }
    var d := doc.value;
    pages := [];
    var pageNum := 1;
    while pageNum <= d.numPages
      invariant 1 <= pageNum <= d.numPages + 1
      invariant forall p :: 1 <= p < pageNum ==> !d.render(p).RenderError?
      invariant forall i :: 0 <= i < |pages| ==>
        (1 <= pages[i].pageNumber < pageNum && d.render(pages[i].pageNumber) == Rendered(pages[i].imageUrl))
      invariant forall i, j :: 0 <= i < j < |pages| ==> pages[i].pageNumber < pages[j].pageNumber
      invariant forall p :: 1 <= p < pageNum && d.render(p).Rendered? ==>
        exists i :: 0 <= i < |pages| && pages[i].pageNumber == p
    {
      match d.render(pageNum) {
        case RenderError =>
          return [];
        case NoContext =>
        case Rendered(url) =>
          ghost var before := pages;
          pages := pages + [PdfPage(pageNum, url)];
          assert forall i :: 0 <= i < |before| ==> pages[i] == before[i];
          assert pages[|pages| - 1].pageNumber == pageNum;
      }
      pageNum := pageNum + 1;
    }
  }

  // ---------------------------------------------------------------------------
  // The wizard
  // ---------------------------------------------------------------------------

  /**
   * The component's state hooks, as one value: the step, the files, the
   * trade and the search box, the pages and the chosen one, the two busy
   * flags, the file id, the result, the current error and the latest
   * progress.
   */
  datatype WizardState = WizardState(
    step: Step, files: seq<UploadedFile>, trade: string, tradeName: string, searchQuery: string,
    pages: seq<PdfPage>, selectedPage: Option<int>, isUploading: bool, isProcessing: bool,
    fileId: Option<string>, results: Option<ProcessingResult>, error: Option<string>,
    progress: Option<Progress>)

  /** The state the component mounts with. */
  const Mounted := WizardState(1, [], "", "", "", [], None, false, false, None, None, None, None)

  /** Step 2 and later have a file id; step 3 has a result. */
  predicate StepInvariant(w: WizardState)
  {
    (w.step >= 2 ==> w.fileId.Some?) && (w.step == 3 ==> w.results.Some?)
  }

  /** `isNextButtonEnabled`. */
  predicate NextButtonEnabled(w: WizardState)
  {
    if w.step == 1 then w.trade != "" && |w.files| > 0 && !w.isUploading
    else if w.step == 2 then w.selectedPage.Some? && !w.isProcessing
    else false
  }

  /** The guard of the step-1 branch of `handleNext`. */
  predicate StepOneGuard(w: WizardState)
  {
    w.trade != "" && |w.files| > 0
  }

  /** The guard of the step-2 branch of `handleNext`. */
  predicate StepTwoGuard(w: WizardState)
  {
    PageChosen(w.selectedPage) && FileIdPresent(w.fileId)
  }

  /** Setting the step; reaching step 1 runs the effect that clears the selected page. */
  function WithStep(w: WizardState, s: Step): (r: WizardState)
    ensures r.step == s
    ensures s == 1 ==> r.selectedPage.None?
    ensures r == w.(step := s, selectedPage := r.selectedPage)
    ensures s != 1 ==> r.selectedPage == w.selectedPage
  {
    if s == 1 then w.(step := s, selectedPage := None) else w.(step := s)
  }

  class Wizard {
    var state: WizardState
    /** The number of closes so far. */
    ghost var session: nat
    /** The jobs begun and not yet completed. */
    ghost var outstanding: multiset<Ticket>
    /** A processing completion begun before the latest close has broken `StepInvariant` in this session. */
    ghost var tainted: bool

    ghost predicate Valid()
      reads this
    {
      && TicketsIssuedBy(outstanding, session)
      && ProcessingHasFile(outstanding, session, state.fileId.Some?)
      && (!tainted ==> StepInvariant(state))
    }

    constructor ()
      ensures Valid() && session == 0 && !tainted && outstanding == multiset{} && state == Mounted
    {
      state := Mounted;
      session, outstanding, tainted := 0, multiset{}, false;
    }

    /**
     * File intake (`handleFileSelect` and `handleDrop`): the new files go after
     * the existing ones; the first PDF among the new files is handed to page
     * extraction, and with none the page list is emptied at once.
     */
    method BeginFileIntake(files: seq<UploadedFile>) returns (job: Option<Job>)
      requires Valid()
      modifies this
      ensures Valid() && session == old(session) && tainted == old(tainted)
      ensures outstanding == old(outstanding) + Issued(job, session)
      ensures FirstPdf(files).Some? ==>
        (job == Some(ExtractJob(files[FirstPdf(files).value]))
        && state == old(state).(files := old(state).files + files))
      ensures FirstPdf(files).None? ==>
        (job.None? && state == old(state).(files := old(state).files + files, pages := []))
    {
      state := state.(files := state.files + files);
      var pdf := FirstPdf(files);
      if pdf.Some? {
        job := Some(ExtractJob(files[pdf.value]));
        IssueTicket(outstanding, session, state.fileId.Some?, Ticket(job.value, session));
        outstanding := outstanding + multiset{Ticket(job.value, session)};
      } else {
        job := None;
        state := state.(pages := []);
      }
    }

    /** The extraction finished (with [] on failure): the page list is replaced. */
    method CompleteFileIntake(ghost ticket: Ticket, pages: seq<PdfPage>)
      requires Valid() && ticket in outstanding && ticket.job.ExtractJob?
      modifies this
      ensures Valid() && session == old(session) && tainted == old(tainted)
      ensures outstanding == old(outstanding) - multiset{ticket}
      ensures state == old(state).(pages := pages)
    {
      state := state.(pages := pages);
      RetireTicket(outstanding, session, state.fileId.Some?, state.fileId.Some?, ticket);
      outstanding := outstanding - multiset{ticket};
    }

    /** `handleTradeSelect`: the trade is chosen and the search is cleared. */
    method TradeSelect(tradeId: string, tradeName: string)
      requires Valid()
      modifies this
      ensures Valid() && session == old(session) && outstanding == old(outstanding) && tainted == old(tainted)
      ensures state == old(state).(trade := tradeId, tradeName := tradeName, searchQuery := "")
    {
      state := state.(trade := tradeId, tradeName := tradeName, searchQuery := "");
    }

    /** The search box's `onChange`. */
    method SetSearchQuery(query: string)
      requires Valid()
      modifies this
      ensures Valid() && session == old(session) && outstanding == old(outstanding) && tainted == old(tainted)
      ensures state == old(state).(searchQuery := query)
    {
      state := state.(searchQuery := query);
    }

    /** A thumbnail's `onSelect` on step 2. */
    method SelectPage(pageNumber: int)
      requires Valid()
      modifies this
      ensures Valid() && session == old(session) && outstanding == old(outstanding) && tainted == old(tainted)
      ensures state == old(state).(selectedPage := Some(pageNumber))
    {
      state := state.(selectedPage := Some(pageNumber));
    }

    /**
     * `handleNext` up to its `await`. The error is cleared first. On step 1,
     * with a trade and files, the first PDF is uploaded, or the user is told
     * to upload one. On step 2, with a page and a file id, the trade's model
     * type is looked up and the page is processed. Otherwise nothing else
     * happens. An early `return` still runs `finally`, which clears the busy
     * flag.
     */
    method BeginNext() returns (job: Option<Job>)
      requires Valid()
      modifies this
      ensures Valid() && session == old(session) && tainted == old(tainted)
      ensures outstanding == old(outstanding) + Issued(job, session)
      ensures var w := old(state);
        if w.step == 1 && StepOneGuard(w) then
          if FirstPdf(w.files).None? then
            job.None? && state == w.(error := Some("Please upload a PDF file"), isUploading := false)
          else
            job == Some(UploadJob(w.files[FirstPdf(w.files).value]))
            && state == w.(error := None, isUploading := true)
        else if w.step == 2 && StepTwoGuard(w) then
          if ModelTypeFor(w.trade).None? then
            job.None? && state == w.(error := Some("Invalid model type selected"), isProcessing := false)
          else
            job == Some(ProcessJob(ProcessPageRequest(w.fileId.value, w.selectedPage.value,
              ModelTypeFor(w.trade).value, false), true))
            && state == w.(error := None, isProcessing := true)
        else
          job.None? && state == w.(error := None)
    {
      state := state.(error := None);
      job := None;
      if state.step == 1 && StepOneGuard(state) {
        job := StartUpload();
      } else if state.step == 2 && StepTwoGuard(state) {
        job := StartProcessing();
      }
    }

    /** The step-1 branch of `handleNext`, after the error was cleared. */
    method StartUpload() returns (job: Option<Job>)
      requires Valid() && StepOneGuard(state)
      modifies this
      ensures Valid() && session == old(session) && tainted == old(tainted)
      ensures outstanding == old(outstanding) + Issued(job, session)
      ensures FirstPdf(old(state).files).None? ==>
        job.None? && state == old(state).(error := Some("Please upload a PDF file"), isUploading := false)
      ensures FirstPdf(old(state).files).Some? ==>
        job == Some(UploadJob(old(state).files[FirstPdf(old(state).files).value]))
        && state == old(state).(isUploading := true)
    {
      state := state.(isUploading := true);
      var pdf := FirstPdf(state.files);
      if pdf.None? {
        state := state.(error := Some("Please upload a PDF file"), isUploading := false);
        return None;
      }
      job := Some(UploadJob(state.files[pdf.value]));
      IssueTicket(outstanding, session, state.fileId.Some?, Ticket(job.value, session));
      outstanding := outstanding + multiset{Ticket(job.value, session)};
    }

    /** The step-2 branch of `handleNext`, after the error was cleared. */
    method StartProcessing() returns (job: Option<Job>)
      requires Valid() && StepTwoGuard(state)
      modifies this
      ensures Valid() && session == old(session) && tainted == old(tainted)
      ensures outstanding == old(outstanding) + Issued(job, session)
      ensures ModelTypeFor(old(state).trade).None? ==>
        job.None? && state == old(state).(error := Some("Invalid model type selected"), isProcessing := false)
      ensures ModelTypeFor(old(state).trade).Some? ==>
        job == Some(ProcessJob(ProcessPageRequest(old(state).fileId.value, old(state).selectedPage.value,
          ModelTypeFor(old(state).trade).value, false), true))
        && state == old(state).(isProcessing := true)
    {
      state := state.(isProcessing := true);
      var modelType := ModelTypeFor(state.trade);
      if modelType.None? {
        state := state.(error := Some("Invalid model type selected"), isProcessing := false);
        return None;
      }
      job := Some(ProcessJob(ProcessPageRequest(state.fileId.value, state.selectedPage.value, modelType.value, false), true));
      IssueTicket(outstanding, session, state.fileId.Some?, Ticket(job.value, session));
      outstanding := outstanding + multiset{Ticket(job.value, session)};
    }

    /** The upload settled: on success the file id is stored and step 2 begins. */
    method CompleteUpload(ghost ticket: Ticket, outcome: Outcome<string>)
      requires Valid() && ticket in outstanding && ticket.job.UploadJob?
      modifies this
      ensures Valid() && session == old(session) && tainted == old(tainted)
      ensures outstanding == old(outstanding) - multiset{ticket}
      ensures match outcome
        case Succeeded(id) => state == old(state).(fileId := Some(id), step := 2, isUploading := false)
        case Threw(t) =>
          state == old(state).(error := Some(CaughtMessage(t, "Failed to upload file")), isUploading := false)
    {
      match outcome {
        case Succeeded(id) =>
          state := WithStep(state.(fileId := Some(id)), 2);
        case Threw(t) =>
          state := state.(error := Some(CaughtMessage(t, "Failed to upload file")));
      }
      state := state.(isUploading := false);
      RetireTicket(outstanding, session, old(state).fileId.Some?, state.fileId.Some?, ticket);
      outstanding := outstanding - multiset{ticket};
    }

    /** `onProgress` of a running stream: the latest progress is shown. */
    method ReceiveProgress(p: Progress)
      requires Valid()
      modifies this
      ensures Valid() && session == old(session) && outstanding == old(outstanding) && tainted == old(tainted)
      ensures state == old(state).(progress := Some(p))
    {
      state := state.(progress := Some(p));
    }

    /** `onError` of a running stream: the message is shown. */
    method ReceiveStreamError(message: string)
      requires Valid()
      modifies this
      ensures Valid() && session == old(session) && outstanding == old(outstanding) && tainted == old(tainted)
      ensures state == old(state).(error := Some(message))
    {
      state := state.(error := Some(message));
    }

    /**
     * The stream begun by `handleNext` settled: on success the result is
     * stored, progress is cleared and step 3 begins. A completion begun in the
     * current session keeps the step invariant.
     */
    method CompleteNextProcessing(ghost ticket: Ticket, outcome: Outcome<ProcessingResult>)
      requires Valid() && ticket in outstanding && ticket.job.ProcessJob? && ticket.job.advancesStep
      modifies this
      ensures Valid() && session == old(session)
      ensures outstanding == old(outstanding) - multiset{ticket}
      ensures ticket.session == session ==> tainted == old(tainted)
      ensures match outcome
        case Succeeded(r) =>
          state == old(state).(results := Some(r), progress := None, step := 3, isProcessing := false)
        case Threw(t) =>
          state == old(state).(error := Some(CaughtMessage(t, "Failed to process page")), isProcessing := false)
    {
      match outcome {
        case Succeeded(r) =>
          state := WithStep(state.(results := Some(r), progress := None), 3);
        case Threw(t) =>
          state := state.(error := Some(CaughtMessage(t, "Failed to process page")));
      }
      state := state.(isProcessing := false);
      RetireTicket(outstanding, session, state.fileId.Some?, state.fileId.Some?, ticket);
      outstanding := outstanding - multiset{ticket};
      tainted := tainted || !StepInvariant(state);
    }

    /**
     * `handlePageSelectFromResults` up to its `await`: without a file id
     * nothing happens; otherwise the clicked page is selected at once, and the
     * page is processed if the trade has a model type.
     */
    method BeginReselect(pageNumber: int) returns (job: Option<Job>)
      requires Valid()
      modifies this
      ensures Valid() && session == old(session) && tainted == old(tainted)
      ensures outstanding == old(outstanding) + Issued(job, session)
      ensures var w := old(state);
        if !FileIdPresent(w.fileId) then job.None? && state == w
        else if ModelTypeFor(w.trade).None? then
          job.None? && state == w.(error := Some("Invalid model type selected"), selectedPage := Some(pageNumber),
            isProcessing := false)
        else
          job == Some(ProcessJob(ProcessPageRequest(w.fileId.value, pageNumber, ModelTypeFor(w.trade).value, false), false))
          && state == w.(error := None, selectedPage := Some(pageNumber), isProcessing := true)
    {
      job := None;
      if !FileIdPresent(state.fileId) {
        return;
      }
      state := state.(isProcessing := true, error := None, selectedPage := Some(pageNumber));
      var modelType := ModelTypeFor(state.trade);
      if modelType.None? {
        state := state.(error := Some("Invalid model type selected"), isProcessing := false);
        return;
      }
      job := Some(ProcessJob(ProcessPageRequest(state.fileId.value, pageNumber, modelType.value, false), false));
      IssueTicket(outstanding, session, state.fileId.Some?, Ticket(job.value, session));
      outstanding := outstanding + multiset{Ticket(job.value, session)};
    }

    /** The re-select stream settled: the result is replaced on success; the step never changes. */
    method CompleteReselect(ghost ticket: Ticket, outcome: Outcome<ProcessingResult>)
      requires Valid() && ticket in outstanding && ticket.job.ProcessJob? && !ticket.job.advancesStep
      modifies this
      ensures Valid() && session == old(session) && tainted == old(tainted)
      ensures outstanding == old(outstanding) - multiset{ticket}
      ensures match outcome
        case Succeeded(r) => state == old(state).(results := Some(r), progress := None, isProcessing := false)
        case Threw(t) =>
          state == old(state).(error := Some(CaughtMessage(t, "Failed to process page")), isProcessing := false)
    {
      match outcome {
        case Succeeded(r) =>
          state := state.(results := Some(r), progress := None);
        case Threw(t) =>
          state := state.(error := Some(CaughtMessage(t, "Failed to process page")));
      }
      state := state.(isProcessing := false);
      RetireTicket(outstanding, session, state.fileId.Some?, state.fileId.Some?, ticket);
      outstanding := outstanding - multiset{ticket};
    }

    /** `handleBack`: one step back from step 2 or 3; reaching step 1 clears the selected page only. */
    method Back()
      requires Valid()
      modifies this
      ensures Valid() && session == old(session) && outstanding == old(outstanding) && tainted == old(tainted)
      ensures old(state).step == 1 ==> state == old(state)
      ensures old(state).step == 2 ==> state == old(state).(step := 1, selectedPage := None)
      ensures old(state).step == 3 ==> state == old(state).(step := 2)
    {
      if state.step > 1 {
        state := WithStep(state, state.step - 1);
      }
    }

    /** A click on a step indicator: only a strictly earlier step can be jumped to. */
    method JumpToStep(target: Step)
      requires Valid()
      modifies this
      ensures Valid() && session == old(session) && outstanding == old(outstanding) && tainted == old(tainted)
      ensures target >= old(state).step ==> state == old(state)
      ensures target < old(state).step ==> state == WithStep(old(state), target)
    {
      if target < state.step {
        state := WithStep(state, target);
      }
    }

    /**
     * Closing the modal resets the session's fields, but neither the progress
     * nor the two busy flags, and cancels nothing: outstanding jobs stay
     * outstanding and now belong to an earlier session.
     */
    method Close()
      requires Valid()
      modifies this
      ensures Valid() && session == old(session) + 1 && outstanding == old(outstanding) && !tainted
      ensures state == Mounted.(isUploading := old(state).isUploading, isProcessing := old(state).isProcessing,
        progress := old(state).progress)
    {
      state := state.(step := 1, files := [], trade := "", tradeName := "", pages := [], selectedPage := None,
        searchQuery := "", fileId := None, results := None, error := None);
      NewSession(outstanding, session);
      session, tainted := session + 1, false;
    }
  }
}
