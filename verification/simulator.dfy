/**
 * The simulator build's update generator (`simulate_update_cycle`): a
 * counter over the eight phases of an update. Each cycle writes the status
 * file for the current phase, with progress `phase * 100 / 8`, and moves to
 * the next phase, back to the first after the last.
 */
module Simulator {
  import opened Wrappers
  import opened JsonField
  import opened CNumbers
  import opened StatusDocument
  import opened FileAccess
  import opened UpdateTracker

  const UpdateSteps: seq<string> := [
    "Preparing for update",
    "Downloading packages",
    "Verifying download",
    "Installing updates",
    "Configuring system",
    "Finalizing installation",
    "Cleaning up",
    "Update complete."
  ]

  /** `num_phases`: the number of entries of `update_steps`. */
  const NumPhases: nat := |UpdateSteps|

  /** The status text every simulated document carries. */
  const UpdatingStatus: string := "System Updating..."

  /** `json_content[512]`, the buffer the document is formatted into. */
  const DocumentBufferSize: nat := 512

  /** The progress written in `phase`, clamped to 100 as the source does. */
  function PhaseProgress(phase: nat): (p: int)
    requires phase < NumPhases
    ensures 0 <= p < 100
    ensures p * NumPhases <= phase * 100 < (p + 1) * NumPhases
  {
    var q := phase * 100 / NumPhases;
    if q > 100 then 100 else q
  }

  /** The progress values of the eight phases, in order. */
  lemma ProgressValues()
    ensures forall phase :: 0 <= phase < NumPhases ==>
      PhaseProgress(phase) == [0, 12, 25, 37, 50, 62, 75, 87][phase]
  {
  }

  /** The clamp to 100 is never taken, and 100 itself is never written. */
  lemma ClampNeverTaken(phase: nat)
    requires phase < NumPhases
    ensures phase * 100 / NumPhases <= 100
    ensures PhaseProgress(phase) == phase * 100 / NumPhases != 100
  {
  }

  /** The phase after `phase`: the next one, or the first after the last. */
  function NextPhase(phase: nat): (n: nat)
    requires phase < NumPhases
    ensures n < NumPhases && n == (phase + 1) % NumPhases
    ensures n == 0 <==> phase == NumPhases - 1
  {
    if phase + 1 >= NumPhases then 0 else phase + 1
  }

  /** The phase after `cycles` cycles from the first phase. */
  function PhaseAfter(cycles: nat): (p: nat)
    ensures p < NumPhases
  {
    if cycles == 0 then 0 else NextPhase(PhaseAfter(cycles - 1))
  }

  /** After `cycles` cycles the simulator is in phase `cycles mod 8`. */
  lemma {:induction false} PhaseAfterIsModulo(cycles: nat)
    ensures PhaseAfter(cycles) == cycles % NumPhases
  {
    if cycles > 0 {
      PhaseAfterIsModulo(cycles - 1);
      var q := (cycles - 1) % NumPhases;
      assert cycles == (cycles - 1) / NumPhases * NumPhases + q + 1;
    }
  }

  /** The text `snprintf` produces for `phase`, cut to what the buffer holds. */
  function FormattedDocument(phase: nat): (r: string)
    requires phase < NumPhases
    ensures |r| < DocumentBufferSize && |r| <= |SimulatorDocument(phase)|
    ensures r == SimulatorDocument(phase)[..|r|]
  {
    var text := Document(FormatInt(PhaseProgress(phase)), UpdatingStatus, UpdateSteps[phase]);
    if |text| < DocumentBufferSize then text else text[..DocumentBufferSize - 1]
  }

  /** The document of `phase`: the layout with the phase's progress, status and step. */
  function SimulatorDocument(phase: nat): (d: string)
    requires phase < NumPhases
    ensures |d| < DocumentBufferSize
  {
    ProgressTokenPlain(phase);
    StepPlain(phase);
    Document(FormatInt(PhaseProgress(phase)), UpdatingStatus, UpdateSteps[phase])
  }

  /** The progress token of a phase: one or two digits. */
  lemma ProgressTokenPlain(phase: nat)
    requires phase < NumPhases
    ensures var p := FormatInt(PhaseProgress(phase));
      PlainToken(p) && |p| <= 2 && AllDigits(p)
  {
    var p := FormatInt(PhaseProgress(phase));
    DecimalLength(PhaseProgress(phase));
    forall i | 0 <= i < |p| ensures !EndsToken(p[i]) && p[i] != '"' && p[i] != '\0' {
      assert IsDigit(p[i]);
    }
  }

  /** Every step text holds no quote and no NUL and fits the `step` array. */
  lemma StepPlain(phase: nat)
    requires phase < NumPhases
    ensures PlainText(UpdateSteps[phase]) && |UpdateSteps[phase]| < TextFieldSize
  {
  }

  /** The phase's texts can be written in the layout and read back. */
  lemma PhaseFieldsPlain(phase: nat)
    requires phase < NumPhases
    ensures var p := FormatInt(PhaseProgress(phase));
      PlainToken(p) && |p| <= 2 && AllDigits(p)
    ensures PlainText(UpdatingStatus)
    ensures PlainText(UpdateSteps[phase]) && |UpdateSteps[phase]| < TextFieldSize
  {
    ProgressTokenPlain(phase);
    StepPlain(phase);
  }

  /** `snprintf` does not cut the document: it fits the buffer, and it holds no NUL. */
  lemma SimulatorDocumentFits(phase: nat)
    requires phase < NumPhases
    ensures |SimulatorDocument(phase)| < DocumentBufferSize && '\0' !in SimulatorDocument(phase)
    ensures FormattedDocument(phase) == SimulatorDocument(phase)
  {
    PhaseFieldsPlain(phase);
    DocumentWithoutNul(FormatInt(PhaseProgress(phase)), UpdatingStatus, UpdateSteps[phase]);
  }

  /** The tracker reads a simulated document back as the phase's progress, status and step. */
  lemma SimulatorDocumentReadBack(phase: nat, s: UpdateStatus)
    requires phase < NumPhases
    ensures ApplyDocument(SimulatorDocument(phase), s) ==
      UpdateStatus(PhaseProgress(phase), UpdatingStatus, UpdateSteps[phase])
  {
    var p := FormatInt(PhaseProgress(phase));
    PhaseFieldsPlain(phase);
    ApplyLayout(p, UpdatingStatus, UpdateSteps[phase], s);
    assert Truncate(p, ProgressTextSize) == p;
    AtoiFormatInt(PhaseProgress(phase));
    assert Truncate(UpdatingStatus, TextFieldSize) == UpdatingStatus;
    assert Truncate(UpdateSteps[phase], TextFieldSize) == UpdateSteps[phase];
  }

  /** The simulator's write, seen by the next tick, shows that phase on screen. */
  lemma SimulatorThenPoll(st: PollState, files: Files, phase: nat, mtime: int, now: int)
    requires phase < NumPhases && mtime != 0 && mtime != st.lastModifiedTime
    ensures var written := files[UpdateJsonPath := FileEntry(mtime, SimulatorDocument(phase), true)];
      var shown := UpdateStatus(PhaseProgress(phase), UpdatingStatus, UpdateSteps[phase]);
      Poll(st, written, now) == Tick(st.(lastModifiedTime := mtime, current := shown), Updated(shown))
  {
    var written := files[UpdateJsonPath := FileEntry(mtime, SimulatorDocument(phase), true)];
    SimulatorDocumentFits(phase);
    assert SimulatorDocument(phase)[..|SimulatorDocument(phase)|] == SimulatorDocument(phase);
    assert ReadFile(written, UpdateJsonPath, JsonBufferSize) == Some(SimulatorDocument(phase));
    SimulatorDocumentReadBack(phase, st.current);
  }

  class UpdateSimulator {
    /** The function-static `update_phase`. */
    var updatePhase: nat

    ghost predicate Valid()
      reads this
    {
      updatePhase < NumPhases
    }

    constructor()
      ensures Valid() && updatePhase == 0
    {
      updatePhase := 0;
    }

    /**
     * `simulate_update_cycle`: writes the current phase's document (a failed
     * write is ignored) and moves to the next phase.
     */
    method SimulateUpdateCycle(fs: FileSystem, mtime: int)
      requires Valid()
      modifies this, fs
      ensures Valid() && updatePhase == NextPhase(old(updatePhase))
      ensures fs.acceptsWrites == old(fs.acceptsWrites)
      ensures fs.files == if old(fs.acceptsWrites)
        then old(fs.files)[UpdateJsonPath := FileEntry(mtime, SimulatorDocument(old(updatePhase)), true)]
        else old(fs.files)
    {
      var progress := (updatePhase * 100) / NumPhases;
      if progress > 100 {
        progress := 100;
      }
      var json := Document(FormatInt(progress), UpdatingStatus, UpdateSteps[updatePhase]);
      if |json| >= DocumentBufferSize {
        json := json[..DocumentBufferSize - 1];
      }
      SimulatorDocumentFits(updatePhase);
      CStrWithoutNul(json);
      var _ := fs.WriteFileContents(UpdateJsonPath, json, mtime);
      updatePhase := updatePhase + 1;
      if updatePhase >= NumPhases {
        updatePhase := 0;
      }
    }
  }
}
