/**
 * Properties of the upload wizard: the trade table, the dropdown filter,
 * the PDF check, how the Next button's enablement relates to what
 * `handleNext` does, and what a completion that outlives a close writes.
 */
module WizardProperties {
  import opened Wrappers
  import opened ApiService
  import opened UploadWizard

  // ---------------------------------------------------------------------------
  // The trade table
  // ---------------------------------------------------------------------------

  /** A trade id has a model type exactly when it is one of the offered trades. */
  lemma ModelTypeCoversTrades(tradeId: string)
    ensures ModelTypeFor(tradeId).Some? <==> exists i :: 0 <= i < |TradesOptions| && TradesOptions[i].id == tradeId
  {
    if ModelTypeFor(tradeId).Some? {
      if tradeId == "elec-data-security-detector" {
        assert TradesOptions[0].id == tradeId;
      } else if tradeId == "mechanical-symbol-detector" {
        assert TradesOptions[1].id == tradeId;
      } else if tradeId == "fire-alarm-detector-v1" {
        assert TradesOptions[2].id == tradeId;
      } else if tradeId == "fire-protection-sprinkler-model" {
        assert TradesOptions[3].id == tradeId;
      } else {
        assert TradesOptions[4].id == tradeId;
      }
    }
  }

  /** Different offered trades are sent to the server as different model types. */
  lemma ModelTokensDistinct(i: int, j: int)
    requires 0 <= i < |TradesOptions| && 0 <= j < |TradesOptions| && i != j
    ensures ModelTypeFor(TradesOptions[i].id).Some? && ModelTypeFor(TradesOptions[j].id).Some?
    ensures ModelTypeFor(TradesOptions[i].id).value.Token() != ModelTypeFor(TradesOptions[j].id).value.Token()
  {
  }

  // ---------------------------------------------------------------------------
  // The dropdown filter
  // ---------------------------------------------------------------------------

  lemma {:induction false} FilterEmptyQuery(options: seq<TradeOption>)
    ensures FilterTrades(options, "") == options
  {
    if options != [] {
      assert OccursAt(ToLower(options[0].name), ToLower(""), 0);
      FilterEmptyQuery(options[1..]);
    }
  }

  /** With an empty search box every trade is listed, in order. */
  lemma EmptyQueryShowsAll()
    ensures FilteredTrades("") == TradesOptions
  {
    FilterEmptyQuery(TradesOptions);
  }

  /** `r` keeps some of the elements of `s`, in their order. */
  ghost predicate SubsequenceOf<T>(r: seq<T>, s: seq<T>)
    decreases |s|
  {
    if s == [] then r == []
    else (r != [] && r[0] == s[0] && SubsequenceOf(r[1..], s[1..])) || SubsequenceOf(r, s[1..])
  }

  lemma {:induction false} FilterKeepsOrder(options: seq<TradeOption>, query: string)
    ensures SubsequenceOf(FilterTrades(options, query), options)
  {
    if options != [] {
      FilterKeepsOrder(options[1..], query);
      var rest := FilterTrades(options[1..], query);
      if MatchesQuery(options[0], query) {
        assert ([options[0]] + rest)[1..] == rest;
      }
    }
  }

  /** The dropdown lists the matching trades in the order they are offered. */
  lemma FilteredTradesInOrder(query: string)
    ensures SubsequenceOf(FilteredTrades(query), TradesOptions)
  {
    FilterKeepsOrder(TradesOptions, query);
  }

  // ---------------------------------------------------------------------------
  // The PDF check
  // ---------------------------------------------------------------------------

  lemma ToLowerAppend(a: string, b: string)
    ensures ToLower(a + b) == ToLower(a) + ToLower(b)
  {
    assert forall i :: 0 <= i < |a + b| ==> ToLower(a + b)[i] == (ToLower(a) + ToLower(b))[i] by {
      forall i | 0 <= i < |a + b| ensures ToLower(a + b)[i] == (ToLower(a) + ToLower(b))[i] {
        if i < |a| {
          assert (a + b)[i] == a[i];
        } else {
          assert (a + b)[i] == b[i - |a|];
        }
      }
    }
  }

  /** The extension check ignores letter case: `.PDF`, `.Pdf` and `.pdf` all count, whatever the MIME type. */
  lemma ExtensionIgnoresCase(base: string, ext: string, size: int, mimeType: string)
    requires ToLower(ext) == ".pdf"
    ensures IsPdf(UploadedFile(base + ext, size, mimeType))
  {
    ToLowerAppend(base, ext);
    var l := ToLower(base + ext);
    assert l[|l| - 4..] == ToLower(ext);
  }

  // ---------------------------------------------------------------------------
  // Enablement and what `handleNext` does
  // ---------------------------------------------------------------------------

  /** On step 1 the button is enabled exactly when `handleNext` would act and no upload is running. */
  lemma StepOneEnabledIffGuard(w: WizardState)
    requires w.step == 1
    ensures NextButtonEnabled(w) <==> StepOneGuard(w) && !w.isUploading
  {
  }

  /** On step 2 the guard of `handleNext` implies the button is enabled unless processing is running. */
  lemma StepTwoGuardEnables(w: WizardState)
    requires w.step == 2 && StepTwoGuard(w)
    ensures NextButtonEnabled(w) <==> !w.isProcessing
  {
  }

  /**
   * The converse fails: the button only asks for a selected page, while
   * `handleNext` also asks for a truthy page number and a non-empty file id.
   */
  lemma EnabledWithoutAdvance(w: WizardState)
    requires w.step == 2 && !w.isProcessing
    requires w.selectedPage == Some(0) || w.fileId.None? || w.fileId == Some("")
    requires w.selectedPage.Some?
    ensures NextButtonEnabled(w) && !StepTwoGuard(w)
  {
  }

  /** On the results step the button is never enabled. */
  lemma ResultsStepDisabled(w: WizardState)
    requires w.step == 3
    ensures !NextButtonEnabled(w)
  {
  }

  // ---------------------------------------------------------------------------
  // Scenarios
  // ---------------------------------------------------------------------------

  /** Upload a PDF, with a trade chosen, and advance: one upload, then step 2 with the file id. */
  method UploadThenSelectPage() returns (w: Wizard)
    ensures fresh(w) && w.session == 0
    ensures w.state.trade == "fire-alarm-detector-v1"
    ensures w.Valid() && w.state.step == 2 && w.state.fileId == Some("file-1")
    ensures w.state.error.None? && !w.state.isUploading && w.outstanding == multiset{}
  {
    w := new Wizard();
    var plan := UploadedFile("plan.pdf", 2048, "application/pdf");
    var extract := w.BeginFileIntake([plan]);
    w.CompleteFileIntake(Ticket(extract.value, 0), [PdfPage(1, "p1"), PdfPage(2, "p2")]);
    w.TradeSelect("fire-alarm-detector-v1", "Fire Alarm");
    var upload := w.BeginNext();
    assert upload == Some(UploadJob(plan));
    w.CompleteUpload(Ticket(upload.value, 0), Succeeded("file-1"));
  }

  /**
   * Close the wizard while an upload is running, then let the upload succeed:
   * the stale completion moves the fresh session to step 2 with the old file id.
   */
  method StaleUploadAfterClose() returns (w: Wizard)
    ensures w.Valid() && w.session == 1 && !w.tainted
    ensures w.state.step == 2 && w.state.fileId == Some("file-1") && w.state.files == []
  {
    w := new Wizard();
    var plan := UploadedFile("plan.pdf", 2048, "application/pdf");
    var extract := w.BeginFileIntake([plan]);
    w.CompleteFileIntake(Ticket(extract.value, 0), [PdfPage(1, "p1")]);
    w.TradeSelect("plumbing-detector", "Plumbing");
    var upload := w.BeginNext();
    w.Close();
    w.CompleteUpload(Ticket(upload.value, 0), Succeeded("file-1"));
  }

  /**
   * Close the wizard while page processing is running, then let it succeed:
   * the fresh session reaches step 3 without a file id.
   */
  method StaleProcessingAfterClose() returns (w: Wizard)
    ensures w.Valid() && w.tainted && !StepInvariant(w.state)
    ensures w.state.step == 3 && w.state.fileId.None? && w.state.results.Some?
  {
    w := UploadThenSelectPage();
    w.SelectPage(1);
    var process := w.BeginNext();
    assert process.Some? && process.value.ProcessJob?;
    w.Close();
    w.CompleteNextProcessing(Ticket(process.value, 0), Succeeded(ProcessingResult("file-1", 1, 4, "completed", "")));
  }
}
