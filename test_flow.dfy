/** The test sub-flow of an inspection: the opening-pressure tolerance band
    around the cold differential test pressure (CDTP), the approval rule,
    the two-step navigation that hands control back to the enclosing
    wizard, the per-test video paths and the back-pressure check boxes.

    Readings are `real`s: floating-point rounding at the band edges is not
    modelled. `parseFloat` is abstract: its result is given as an
    `Option<real>`, `None` standing for `NaN`. */
module TestFlow {
  import opened Common
  import opened Text

  /** `parseFloat(cdtp) || 0`: an unparsable or zero CDTP counts as 0. */
  function CdtpValue(parsed: Option<real>): real {
    if parsed.Some? then parsed.value else 0.0
  }

  /** Lower end of the band: 3% below the CDTP. */
  function ToleranceMin(cdtp: real): real {
    cdtp * 0.97
  }

  /** Upper end of the band: 3% above the CDTP. */
  function ToleranceMax(cdtp: real): real {
    cdtp * 1.03
  }

  /** `isTestApproved`: the reading lies in the band, both ends included. */
  predicate IsTestApproved(cdtp: real, v: real) {
    v >= ToleranceMin(cdtp) && v <= ToleranceMax(cdtp)
  }

  /** Stated without the two bounds: for a non-negative CDTP a reading is
      approved exactly when it is within 3% of the CDTP. */
  lemma ApprovedWithinThreePercent(cdtp: real, v: real)
    requires cdtp >= 0.0
    ensures IsTestApproved(cdtp, v) <==> -(cdtp * 0.03) <= v - cdtp <= cdtp * 0.03
  {
  }

  /** Some reading is approved exactly when the CDTP is non-negative: the
      CDTP itself is then approved, and for a negative CDTP the lower end
      lies above the upper end. */
  lemma BandNonEmptyIff(cdtp: real)
    ensures (exists v :: IsTestApproved(cdtp, v)) <==> cdtp >= 0.0
  {
    if cdtp >= 0.0 {
      assert IsTestApproved(cdtp, cdtp);
    } else {
      assert ToleranceMin(cdtp) > ToleranceMax(cdtp);
    }
  }

  /** An absent or unparsable CDTP gives the band [0, 0]. */
  lemma MissingCdtpBand(v: real)
    ensures IsTestApproved(CdtpValue(None), v) <==> v == 0.0
  {
  }

  /** The worked values: with CDTP 10 the band is [9.70, 10.30]. */
  lemma BandAtTen()
    ensures ToleranceMin(10.0) == 9.7 && ToleranceMax(10.0) == 10.3
    ensures IsTestApproved(10.0, 9.70) && !IsTestApproved(10.0, 9.69)
    ensures IsTestApproved(10.0, 10.30) && !IsTestApproved(10.0, 10.31)
  {
  }

  /** The readings of the test form. A reading is `None` when it was never
      entered or did not parse. */
  datatype TestResults = TestResults(
    trial1: Option<real>,
    trial2: Option<real>,
    trial3: Option<real>,
    bubblesPerMinute: Option<real>,
    backPressureApproved: Option<bool>,
    rejectionNote: Option<string>)

  const NoResults := TestResults(None, None, None, None, None, None)

  /** The test component whose readings are checked against the band. */
  const OpeningPressure := "pressao_abertura"

  /** `getTestApprovalStatus`: the test is rejected only when the opening
      pressure test is selected and its third trial is set (non-zero) and
      outside the band. */
  function ApprovalStatus(components: seq<string>, results: TestResults, cdtp: real): (approved: bool)
    ensures !approved <==> && OpeningPressure in components
                           && NumberTruthy(results.trial3)
                           && !IsTestApproved(cdtp, results.trial3.value)
  {
    if OpeningPressure in components then
      var t3 := results.trial3;
      if NumberTruthy(t3) && !IsTestApproved(cdtp, t3.value) then false else true
    else true
  }

  /** The first two trials never change the outcome. */
  lemma FirstTrialsIgnored(components: seq<string>, results: TestResults, cdtp: real, t1: Option<real>, t2: Option<real>)
    ensures ApprovalStatus(components, results.(trial1 := t1, trial2 := t2), cdtp)
         == ApprovalStatus(components, results, cdtp)
  {
  }

  /** The approved/rejected mark under the third trial: shown only in the
      opening-pressure section and only when that trial is set and
      non-zero; `Some(true)` reads "Aprovado", `Some(false)` "Reprovado". */
  function Indicator(components: seq<string>, results: TestResults, cdtp: real): Option<bool> {
    if OpeningPressure in components && NumberTruthy(results.trial3) then
      Some(IsTestApproved(cdtp, results.trial3.value))
    else None
  }

  /** The status and the mark agree: the test is rejected exactly when the
      mark under the third trial reads "Reprovado". */
  lemma StatusMatchesIndicator(components: seq<string>, results: TestResults, cdtp: real)
    ensures ApprovalStatus(components, results, cdtp) <==> Indicator(components, results, cdtp) != Some(false)
  {
  }

  /** With CDTP 16 and trials 15.8, 15.9 and 16.5, the band is
      [15.52, 16.48] and the third trial rejects the test. */
  lemma RejectedThirdTrial()
    ensures ToleranceMin(16.0) == 15.52 && ToleranceMax(16.0) == 16.48
    ensures !ApprovalStatus([OpeningPressure], NoResults.(trial1 := Some(15.8), trial2 := Some(15.9), trial3 := Some(16.5)), 16.0)
  {
  }

  /** The "approved" back-pressure box: `!!checked`. */
  function AfterApprovedBox(r: TestResults, checked: bool): TestResults {
    r.(backPressureApproved := Some(checked))
  }

  /** The "rejected" back-pressure box: `false` when checked, unset when
      cleared. */
  function AfterRejectedBox(r: TestResults, checked: bool): TestResults {
    r.(backPressureApproved := if checked then Some(false) else None)
  }

  /** The rejection note is asked for only when the result is exactly `false`. */
  predicate NoteShown(r: TestResults) {
    r.backPressureApproved == Some(false)
  }

  /** The two boxes: ticking "rejected" asks for a note, clearing it does
      not; the "approved" box asks for a note exactly when it is cleared,
      since clearing it records `false`. No other reading changes. */
  lemma BackPressureBoxes(r: TestResults, checked: bool)
    ensures NoteShown(AfterRejectedBox(r, checked)) <==> checked
    ensures NoteShown(AfterApprovedBox(r, checked)) <==> !checked
    ensures AfterApprovedBox(r, checked).(backPressureApproved := r.backPressureApproved) == r
    ensures AfterRejectedBox(r, checked).(backPressureApproved := r.backPressureApproved) == r
  {
  }

  /** `<inspectionId>/videos/<testType>/<timestamp>.<ext>`, where `ext` is
      the text after the file name's last `.`. */
  function VideoPath(inspectionId: string, testType: string, timestamp: string, fileName: string): string {
    inspectionId + "/videos/" + testType + "/" + timestamp + "." + LastPiece(fileName, '.')
  }

  /** A video path starts with the inspection and test type and ends with
      the file's extension: its own text after the last `.` is the file
      name's. */
  lemma VideoPathShape(inspectionId: string, testType: string, timestamp: string, fileName: string)
    ensures var prefix := inspectionId + "/videos/" + testType + "/";
            var p := VideoPath(inspectionId, testType, timestamp, fileName);
            |prefix| <= |p| && p[..|prefix|] == prefix
    ensures LastPiece(VideoPath(inspectionId, testType, timestamp, fileName), '.') == LastPiece(fileName, '.')
  {
    var ext := LastPiece(fileName, '.');
    var front := inspectionId + "/videos/" + testType + "/" + timestamp;
    assert VideoPath(inspectionId, testType, timestamp, fileName) == front + ['.'] + ext;
    LastPieceAfterSeparator(front, '.', ext);
  }

  /** What a navigation button asks of the enclosing wizard. */
  datatype Signal = Stay | Finish | Back

  datatype TestConfig = TestConfig(
    testType: string,
    testComponents: seq<string>,
    instruments: string,
    cdtp: Option<real>,
    fluid: string)

  /** The sub-flow's state: its step (1 = readings, 2 = videos), the
      readings and the uploaded video path per test type. */
  class Flow {
    const inspectionId: string
    const config: TestConfig
    var step: int
    var results: TestResults
    var videos: map<string, string>

    ghost predicate Valid()
      reads this
    {
      1 <= step <= 2
    }

    constructor (inspectionId: string, config: TestConfig)
      ensures Valid()
      ensures this.inspectionId == inspectionId && this.config == config
      ensures step == 1 && results == NoResults && videos == map[]
    {
      this.inspectionId := inspectionId;
      this.config := config;
      step := 1;
      results := NoResults;
      videos := map[];
    }

    /** The band shown and applied for this inspection's configuration. */
    function Cdtp(): real {
      CdtpValue(config.cdtp)
    }

    /** The outcome shown for the current readings. */
    function Approved(): bool
      reads this
    {
      ApprovalStatus(config.testComponents, results, Cdtp())
    }

    /** "Próximo" / "Finalizar": 1 goes to 2; at 2 the enclosing wizard is
        told to finish and the step stays. Nothing about the readings is
        checked first. */
    method HandleNext() returns (signal: Signal)
      requires Valid()
      modifies this`step
      ensures Valid()
      ensures old(step) == 1 ==> step == 2 && signal == Stay
      ensures old(step) == 2 ==> step == 2 && signal == Finish
    {
      if step < 2 {
        step := step + 1;
        signal := Stay;
      } else {
        signal := Finish;
      }
    }

    /** "Voltar": 2 goes to 1; at 1 the enclosing wizard is told to go back
        and the step stays. */
    method HandlePrevious() returns (signal: Signal)
      requires Valid()
      modifies this`step
      ensures Valid()
      ensures old(step) == 2 ==> step == 1 && signal == Stay
      ensures old(step) == 1 ==> step == 1 && signal == Back
    {
      if step > 1 {
        step := step - 1;
        signal := Stay;
      } else {
        signal := Back;
      }
    }

    /** Records the path of an uploaded video under its test type,
        replacing any earlier path for that type. */
    method HandleVideoUpload(testType: string, fileName: string, timestamp: string)
      modifies this`videos
      ensures videos == old(videos)[testType := VideoPath(inspectionId, testType, timestamp, fileName)]
    {
      var path := VideoPath(inspectionId, testType, timestamp, fileName);
      videos := videos[testType := path];
    }

    method CheckApprovedBox(checked: bool)
      modifies this`results
      ensures results == AfterApprovedBox(old(results), checked)
    {
      results := AfterApprovedBox(results, checked);
    }

    method CheckRejectedBox(checked: bool)
      modifies this`results
      ensures results == AfterRejectedBox(old(results), checked)
    {
      results := AfterRejectedBox(results, checked);
    }
  }
}
