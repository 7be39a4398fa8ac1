/**
 * The transform step of the ETL script: identifier clean-up, the two merges
 * and the derived `total_cost` column. Source tables are sequences of rows;
 * the three data frames the script changes in place are classes.
 */
module Etl {
  import opened Wrappers
  import opened Text
  import opened TreatmentIds
  import opened Joins

  /** A row of the feedback source (columns patient_id, treatment_id, review_date, patient_feedback_score). */
  datatype FeedbackRecord = FeedbackRecord(
    patientId: string,
    treatmentId: string,
    reviewDate: Option<int>,
    feedbackScore: Option<int>)

  /** A row of the patient/treatment source; dates are day numbers, costs exact integers. */
  datatype PatientRecord = PatientRecord(
    patientId: string,
    treatmentId: string,
    doctorId: string,
    treatmentDate: Option<int>,
    treatmentType: string,
    treatmentCost: Option<int>,
    roomCost: Option<int>)

  /** A row of the doctor reference source; doctor_id is not guaranteed unique. */
  datatype DoctorRecord = DoctorRecord(doctorId: string, doctorName: string, specialty: string)

  /** A row of feedback ⋈ patient data: the feedback columns beside the patient columns. */
  type FeedbackPatientRow = Joined<FeedbackRecord, PatientRecord>

  /** A row after the doctor merge: doctor columns missing when no doctor matched. */
  type MergedRow = LeftJoined<FeedbackPatientRow, DoctorRecord>

  /**
   * A row of the warehouse table. Its columns are those of the three sources
   * plus total_cost; the shared treatment_id column appears twice, as
   * treatment_id_x (feedback side) and treatment_id_y (patient side).
   */
  datatype ProcessedRecord = ProcessedRecord(
    feedback: FeedbackRecord,
    patient: PatientRecord,
    doctor: Option<DoctorRecord>,
    totalCost: Option<int>)
  {
    /** The patient_id column: the inner merge's key, equal on both sides. */
    function PatientId(): string { feedback.patientId }
    function TreatmentIdX(): string { feedback.treatmentId }
    function TreatmentIdY(): string { patient.treatmentId }
  }

  // Key columns of the two merges.
  function FeedbackPatient(f: FeedbackRecord): string { f.patientId }
  function PatientPatient(p: PatientRecord): string { p.patientId }
  function RowDoctor(r: FeedbackPatientRow): string { r.right.doctorId }
  function DoctorKey(d: DoctorRecord): string { d.doctorId }
  function RecordPatient(r: ProcessedRecord): string { r.PatientId() }

  // The patient_id of a raw row as it reads once stripped.
  function StrippedFeedbackPatient(f: FeedbackRecord): string { Strip(f.patientId) }
  function StrippedPatientPatient(p: PatientRecord): string { Strip(p.patientId) }

  /** Both identifier columns of a feedback row stripped of surrounding whitespace. */
  function StripFeedbackIds(f: FeedbackRecord): FeedbackRecord
  {
    f.(patientId := Strip(f.patientId), treatmentId := Strip(f.treatmentId))
  }

  /** Both identifier columns of a patient row stripped of surrounding whitespace. */
  function StripPatientIds(p: PatientRecord): PatientRecord
  {
    p.(patientId := Strip(p.patientId), treatmentId := Strip(p.treatmentId))
  }

  function StripAllFeedback(rows: seq<FeedbackRecord>): seq<FeedbackRecord>
  {
    seq(|rows|, i requires 0 <= i < |rows| => StripFeedbackIds(rows[i]))
  }

  function StripAllPatients(rows: seq<PatientRecord>): seq<PatientRecord>
  {
    seq(|rows|, i requires 0 <= i < |rows| => StripPatientIds(rows[i]))
  }

  /**
   * The feedback treatment_id column standardised as a whole: it fails with the
   * error of the first value that cannot be read, leaving nothing changed;
   * otherwise each row gets its standardised id and keeps everything else.
   */
  function StandardizeFeedback(rows: seq<FeedbackRecord>): (r: Result<seq<FeedbackRecord>, IdError>)
    ensures r.Success? <==> forall i :: 0 <= i < |rows| ==> NormalizeTreatmentId(rows[i].treatmentId).Success?
    ensures r.Success? ==> |r.value| == |rows| && forall i :: 0 <= i < |rows| ==>
      r.value[i] == rows[i].(treatmentId := NormalizeTreatmentId(rows[i].treatmentId).value)
    ensures r.Failure? ==>
              exists i :: 0 <= i < |rows| && NormalizeTreatmentId(rows[i].treatmentId) == Failure(r.error)
                            && (forall j :: 0 <= j < i ==> NormalizeTreatmentId(rows[j].treatmentId).Success?)
  {
    if rows == [] then Success([])
    else match NormalizeTreatmentId(rows[0].treatmentId)
      case Failure(e) => Failure(e)
      case Success(t) =>
        match StandardizeFeedback(rows[1..])
        case Failure(e) =>
          assert forall j :: 1 <= j < |rows| ==> rows[1..][j - 1] == rows[j];
          Failure(e)
        case Success(rest) => Success([rows[0].(treatmentId := t)] + rest)
  }

  /** `treatment_cost + room_cost`: missing when either is missing, otherwise their exact sum. */
  function TotalCost(treatmentCost: Option<int>, roomCost: Option<int>): (t: Option<int>)
    ensures t.None? <==> treatmentCost.None? || roomCost.None?
    ensures t.Some? ==> t.value == treatmentCost.value + roomCost.value
  {
    if treatmentCost.Some? && roomCost.Some? then Some(treatmentCost.value + roomCost.value) else None
  }

  /** The two merges: feedback ⋈ patient data on patient_id (inner), then ⟕ doctors on doctor_id (left). */
  function Merge(feedback: seq<FeedbackRecord>, patients: seq<PatientRecord>, doctors: seq<DoctorRecord>): seq<MergedRow>
  {
    LeftJoin(InnerJoin(feedback, patients, FeedbackPatient, PatientPatient), doctors, RowDoctor, DoctorKey)
  }

  /** A merged row with its total_cost column. */
  function WithTotalCost(m: MergedRow, totalCost: Option<int>): ProcessedRecord
  {
    ProcessedRecord(m.left.left, m.left.right, m.right, totalCost)
  }

  function TotalCostOf(m: MergedRow): Option<int>
  {
    TotalCost(m.left.right.treatmentCost, m.left.right.roomCost)
  }

  /** The whole transform: what the script writes to the warehouse, or the error it stops with. */
  function Transform(feedback: seq<FeedbackRecord>, patients: seq<PatientRecord>, doctors: seq<DoctorRecord>)
    : Result<seq<ProcessedRecord>, IdError>
  {
    match StandardizeFeedback(StripAllFeedback(feedback))
    case Failure(e) => Failure(e)
    case Success(standardized) => Success(Derive(Merge(standardized, StripAllPatients(patients), doctors)))
  }

  /** Every merged row with its total_cost. */
  function Derive(merged: seq<MergedRow>): seq<ProcessedRecord>
  {
    seq(|merged|, i requires 0 <= i < |merged| => WithTotalCost(merged[i], TotalCostOf(merged[i])))
  }

  /** feedback_df, whose identifier columns the script overwrites in place. */
  class FeedbackFrame {
    var rows: seq<FeedbackRecord>

    constructor (rows: seq<FeedbackRecord>)
      ensures this.rows == rows
    {
      this.rows := rows;
    }

    /** patient_id and treatment_id stripped; other columns and the row order unchanged. */
    method StripIds()
      modifies this
      ensures |rows| == |old(rows)|
      ensures forall i :: 0 <= i < |rows| ==> rows[i] == StripFeedbackIds(old(rows)[i])
    {
      rows := StripAllFeedback(rows);
    }

    /**
     * treatment_id replaced by its standardised form, or, when some value cannot
     * be read, the first such error reported and the frame left as it was.
     */
    method StandardizeTreatmentIds() returns (err: Option<IdError>)
      modifies this
      ensures match StandardizeFeedback(old(rows))
        case Success(v) => err == None && rows == v
        case Failure(e) => err == Some(e) && rows == old(rows)
    {
      match StandardizeFeedback(rows)
      case Success(v) =>
        rows := v;
        err := None;
      case Failure(e) =>
        err := Some(e);
    }
  }

  /** patient_data_df, whose identifier columns the script overwrites in place. */
  class PatientFrame {
    var rows: seq<PatientRecord>

    constructor (rows: seq<PatientRecord>)
      ensures this.rows == rows
    {
      this.rows := rows;
    }

    /** patient_id and treatment_id stripped; other columns and the row order unchanged. */
    method StripIds()
      modifies this
      ensures |rows| == |old(rows)|
      ensures forall i :: 0 <= i < |rows| ==> rows[i] == StripPatientIds(old(rows)[i])
    {
      rows := StripAllPatients(rows);
    }
  }

  /** final_df, to which the script adds the total_cost column. */
  class FinalFrame {
    var rows: seq<MergedRow>
    var totalCost: Option<seq<Option<int>>>  // None until the column is added

    constructor (rows: seq<MergedRow>)
      ensures this.rows == rows && totalCost == None
    {
      this.rows := rows;
      totalCost := None;
    }

    /** total_cost computed row by row; the existing columns are untouched. */
    method DeriveTotalCost()
      modifies this
      ensures rows == old(rows)
      ensures totalCost.Some? && |totalCost.value| == |rows|
      ensures forall i :: 0 <= i < |rows| ==> totalCost.value[i] == TotalCostOf(rows[i])
    {
      var column: seq<Option<int>> := [];
      var i := 0;
      while i < |rows|
        invariant 0 <= i <= |rows| && |column| == i
        invariant forall j :: 0 <= j < i ==> column[j] == TotalCostOf(rows[j])
      {
        column := column + [TotalCost(rows[i].left.right.treatmentCost, rows[i].left.right.roomCost)];
        i := i + 1;
      }
      totalCost := Some(column);
    }

    /** The table as written to the warehouse. */
    function Table(): seq<ProcessedRecord>
      reads this
      requires totalCost.Some? && |totalCost.value| == |rows|
    {
      var rs, column := rows, totalCost.value;
      seq(|rs|, i requires 0 <= i < |rs| => WithTotalCost(rs[i], column[i]))
    }
  }

  /** The transform as the script runs it, step by step, on its data frames. */
  method RunEtl(feedback: seq<FeedbackRecord>, patients: seq<PatientRecord>, doctors: seq<DoctorRecord>)
    returns (r: Result<seq<ProcessedRecord>, IdError>)
    ensures r == Transform(feedback, patients, doctors)
  {
    var feedbackDf := new FeedbackFrame(feedback);
    var patientDf := new PatientFrame(patients);
    feedbackDf.StripIds();
    patientDf.StripIds();
    assert feedbackDf.rows == StripAllFeedback(feedback);
    assert patientDf.rows == StripAllPatients(patients);
    var err := feedbackDf.StandardizeTreatmentIds();
    if err.Some? {
      return Failure(err.value);
    }
    var merged := Merge(feedbackDf.rows, patientDf.rows, doctors);
    assert Transform(feedback, patients, doctors) == Success(Derive(merged));
    var finalDf := new FinalFrame(merged);
    finalDf.DeriveTotalCost();
    var table := finalDf.Table();
    assert table == Derive(merged);
    r := Success(table);
  }

  function RecordDoctor(r: ProcessedRecord): string { r.patient.doctorId }

  /**
   * Where a warehouse row comes from: one feedback row (ids stripped, its
   * treatment_id standardised) and one patient row (ids stripped) whose
   * patient_ids agree once stripped, whatever their treatment_ids; the doctor
   * of its doctor_id when there is one and missing doctor columns only when
   * there is none; and the sum of its two costs.
   */
  predicate FromSources(r: ProcessedRecord, feedback: seq<FeedbackRecord>, patients: seq<PatientRecord>, doctors: seq<DoctorRecord>)
  {
    && (exists i :: 0 <= i < |feedback|
         && r.feedback == StripFeedbackIds(feedback[i]).(treatmentId := r.feedback.treatmentId)
         && NormalizeTreatmentId(Strip(feedback[i].treatmentId)) == Success(r.feedback.treatmentId))
    && (exists j :: 0 <= j < |patients| && r.patient == StripPatientIds(patients[j]))
    && r.feedback.patientId == r.patient.patientId
    && (r.doctor.Some? ==> r.doctor.value in doctors && r.doctor.value.doctorId == r.patient.doctorId)
    && (r.doctor.None? <==> Count(doctors, DoctorKey, r.patient.doctorId) == 0)
    && r.totalCost == TotalCost(r.patient.treatmentCost, r.patient.roomCost)
  }

  lemma EtlRowProvenance(feedback: seq<FeedbackRecord>, patients: seq<PatientRecord>, doctors: seq<DoctorRecord>)
    requires Transform(feedback, patients, doctors).Success?
    ensures forall r :: r in Transform(feedback, patients, doctors).value ==> FromSources(r, feedback, patients, doctors)
  {
    var cleaned := StripAllFeedback(feedback);
    var standardized := StandardizeFeedback(cleaned).value;
    var stripped := StripAllPatients(patients);
    var inner := InnerJoin(standardized, stripped, FeedbackPatient, PatientPatient);
    var merged := LeftJoin(inner, doctors, RowDoctor, DoctorKey);
    var rows := Transform(feedback, patients, doctors).value;
    assert rows == Derive(merged);
    forall r | r in rows ensures FromSources(r, feedback, patients, doctors) {
      var k :| 0 <= k < |merged| && rows[k] == r;
      var m := merged[k];
      LeftJoinRow(inner, doctors, RowDoctor, DoctorKey, m);
      assert m.left.left in standardized && m.left.right in stripped
        && m.left.left.patientId == m.left.right.patientId by {
        InnerJoinMembers(standardized, stripped, FeedbackPatient, PatientPatient);
      }
      MergedRowFromSources(feedback, patients, doctors, standardized, stripped, m);
    }
  }

  lemma MergedRowFromSources(feedback: seq<FeedbackRecord>, patients: seq<PatientRecord>, doctors: seq<DoctorRecord>,
                             standardized: seq<FeedbackRecord>, stripped: seq<PatientRecord>, m: MergedRow)
    requires StandardizeFeedback(StripAllFeedback(feedback)) == Success(standardized)
    requires stripped == StripAllPatients(patients)
    requires m.left.left in standardized && m.left.right in stripped
    requires m.left.left.patientId == m.left.right.patientId
    requires m.right.Some? ==> m.right.value in doctors && m.right.value.doctorId == m.left.right.doctorId
    requires m.right.None? <==> Count(doctors, DoctorKey, m.left.right.doctorId) == 0
    ensures FromSources(WithTotalCost(m, TotalCostOf(m)), feedback, patients, doctors)
  {
    var cleaned := StripAllFeedback(feedback);
    var i :| 0 <= i < |standardized| && standardized[i] == m.left.left;
    assert cleaned[i] == StripFeedbackIds(feedback[i]);
    var j :| 0 <= j < |stripped| && stripped[j] == m.left.right;
    assert m.left.right == StripPatientIds(patients[j]);
  }

  /**
   * In the warehouse table patient_id and treatment_id_y are stripped, and
   * treatment_id_x is a standardised id ("T" and at least four characters)
   * that standardising again leaves unchanged.
   */
  lemma EtlIdsNormalized(feedback: seq<FeedbackRecord>, patients: seq<PatientRecord>, doctors: seq<DoctorRecord>)
    requires Transform(feedback, patients, doctors).Success?
    ensures forall r :: r in Transform(feedback, patients, doctors).value ==>
      && IsStripped(r.PatientId()) && IsStripped(r.TreatmentIdY()) && IsStripped(r.TreatmentIdX())
      && |r.TreatmentIdX()| >= 5 && r.TreatmentIdX()[0] == 'T'
      && NormalizeTreatmentId(r.TreatmentIdX()) == Success(r.TreatmentIdX())
  {
    EtlRowProvenance(feedback, patients, doctors);
    forall r | r in Transform(feedback, patients, doctors).value
      ensures IsStripped(r.PatientId()) && IsStripped(r.TreatmentIdY()) && IsStripped(r.TreatmentIdX())
      ensures |r.TreatmentIdX()| >= 5 && r.TreatmentIdX()[0] == 'T'
      ensures NormalizeTreatmentId(r.TreatmentIdX()) == Success(r.TreatmentIdX())
    {
      assert FromSources(r, feedback, patients, doctors);
      var i :| 0 <= i < |feedback|
        && r.feedback == StripFeedbackIds(feedback[i]).(treatmentId := r.feedback.treatmentId)
        && NormalizeTreatmentId(Strip(feedback[i].treatmentId)) == Success(r.feedback.treatmentId);
      var j :| 0 <= j < |patients| && r.patient == StripPatientIds(patients[j]);
      StripSpec(feedback[i].patientId);
      StripSpec(patients[j].treatmentId);
      NormalizedShape(Strip(feedback[i].treatmentId));
      NormalizeIdempotent(Strip(feedback[i].treatmentId));
    }
  }

  /**
   * The fan-out of the patient_id merge, end to end: when doctor_id is unique
   * among doctors, a patient with `a` feedback rows and `b` patient rows (ids
   * compared once stripped) has exactly `a * b` warehouse rows, none when
   * either is 0, and the doctor merge adds no rows.
   */
  lemma EtlFanOut(feedback: seq<FeedbackRecord>, patients: seq<PatientRecord>, doctors: seq<DoctorRecord>, p: string)
    requires Transform(feedback, patients, doctors).Success?
    requires UniqueKeys(doctors, DoctorKey)
    ensures var standardized := StandardizeFeedback(StripAllFeedback(feedback)).value;
      |Transform(feedback, patients, doctors).value|
        == |InnerJoin(standardized, StripAllPatients(patients), FeedbackPatient, PatientPatient)|
    ensures Count(Transform(feedback, patients, doctors).value, RecordPatient, p)
      == Count(feedback, StrippedFeedbackPatient, p) * Count(patients, StrippedPatientPatient, p)
  {
    var cleaned := StripAllFeedback(feedback);
    var standardized := StandardizeFeedback(cleaned).value;
    var stripped := StripAllPatients(patients);
    var inner := InnerJoin(standardized, stripped, FeedbackPatient, PatientPatient);
    var merged := LeftJoin(inner, doctors, RowDoctor, DoctorKey);
    var rows := Transform(feedback, patients, doctors).value;
    assert rows == Derive(merged);
    LeftJoinUnique(inner, doctors, RowDoctor, DoctorKey);
    CountJoinedPointwise(rows, RecordPatient, inner, FeedbackPatient, p);
    InnerJoinFanOut(standardized, stripped, FeedbackPatient, PatientPatient, p);
    CountPointwise(standardized, FeedbackPatient, feedback, StrippedFeedbackPatient, p);
    CountPointwise(stripped, PatientPatient, patients, StrippedPatientPatient, p);
  }

  /**
   * The doctor merge on its own: a doctor_id held by `a` feedback-patient rows
   * and `b` doctor rows gives `a * b` warehouse rows, or `a` rows with missing
   * doctor columns when `b == 0`.
   */
  lemma EtlDoctorFanOut(feedback: seq<FeedbackRecord>, patients: seq<PatientRecord>, doctors: seq<DoctorRecord>, d: string)
    requires Transform(feedback, patients, doctors).Success?
    ensures var standardized := StandardizeFeedback(StripAllFeedback(feedback)).value;
      var inner := InnerJoin(standardized, StripAllPatients(patients), FeedbackPatient, PatientPatient);
      var b := Count(doctors, DoctorKey, d);
      Count(Transform(feedback, patients, doctors).value, RecordDoctor, d)
        == Count(inner, RowDoctor, d) * (if b == 0 then 1 else b)
  {
    var standardized := StandardizeFeedback(StripAllFeedback(feedback)).value;
    var inner := InnerJoin(standardized, StripAllPatients(patients), FeedbackPatient, PatientPatient);
    var merged := LeftJoin(inner, doctors, RowDoctor, DoctorKey);
    var rows := Transform(feedback, patients, doctors).value;
    assert rows == Derive(merged);
    CountLeftJoinedPointwise(rows, RecordDoctor, merged, RowDoctor, d);
    LeftJoinFanOut(inner, doctors, RowDoctor, DoctorKey, d);
  }

  /**
   * treatment_id is not part of the merge key: a feedback row about treatment
   * T1 pairs with the same patient's row about treatment T0002, and the
   * warehouse row carries both ids.
   */
  lemma TreatmentIdNotAJoinKey()
    ensures var fb := FeedbackRecord("P1", "T1", None, Some(4));
      var pt := PatientRecord("P1", "T0002", "D1", None, "Surgery", Some(100), Some(50));
      Transform([fb], [pt], []) == Success([ProcessedRecord(fb.(treatmentId := "T0001"), pt, None, Some(150))])
  {
    var fb := FeedbackRecord("P1", "T1", None, Some(4));
    var pt := PatientRecord("P1", "T0002", "D1", None, "Surgery", Some(100), Some(50));
    assert IsStripped(fb.patientId) && IsStripped(fb.treatmentId);
    assert IsStripped(pt.patientId) && IsStripped(pt.treatmentId);
    StandardizeExample();
    TransformSinglePair(fb, pt, "T0001");
  }

  /**
   * One feedback row and one patient row of the same patient, ids already
   * stripped, no doctors: one warehouse row whose treatment_id is the
   * feedback's standardised id, whatever the patient row's treatment_id.
   */
  lemma TransformSinglePair(f: FeedbackRecord, p: PatientRecord, t: string)
    requires IsStripped(f.patientId) && IsStripped(f.treatmentId)
    requires IsStripped(p.patientId) && IsStripped(p.treatmentId)
    requires f.patientId == p.patientId
    requires NormalizeTreatmentId(f.treatmentId) == Success(t)
    ensures Transform([f], [p], []) ==
      Success([ProcessedRecord(f.(treatmentId := t), p, None, TotalCost(p.treatmentCost, p.roomCost))])
  {
    StripOneFeedback(f);
    StandardizeOne(f, t);
    StripOnePatient(p);
    var f' := f.(treatmentId := t);
    SinglePairMerge(f', p);
    var m := [LeftJoined(Joined(f', p), None)];
    assert Merge([f'], StripAllPatients([p]), []) == m;
    assert Derive(m) == [ProcessedRecord(f', p, None, TotalCost(p.treatmentCost, p.roomCost))];
  }

  /** A feedback row whose ids have no surrounding whitespace is left alone by the stripping. */
  lemma StripOneFeedback(f: FeedbackRecord)
    requires IsStripped(f.patientId) && IsStripped(f.treatmentId)
    ensures StripAllFeedback([f]) == [f]
  {
    StripKeepsStripped(f.patientId);
    StripKeepsStripped(f.treatmentId);
  }

  /** The same for a patient row. */
  lemma StripOnePatient(p: PatientRecord)
    requires IsStripped(p.patientId) && IsStripped(p.treatmentId)
    ensures StripAllPatients([p]) == [p]
  {
    StripKeepsStripped(p.patientId);
    StripKeepsStripped(p.treatmentId);
  }

  /** A one-row feedback table whose treatment_id standardises to `t`. */
  lemma StandardizeOne(f: FeedbackRecord, t: string)
    requires NormalizeTreatmentId(f.treatmentId) == Success(t)
    ensures StandardizeFeedback([f]) == Success([f.(treatmentId := t)])
  {
    var r := StandardizeFeedback([f]);
    assert [f][0] == f;
    assert r.Success?;
    assert r.value[0] == f.(treatmentId := t);
    assert r.value == [f.(treatmentId := t)];
  }

  /** One feedback row and one patient row of the same patient, no doctors: one merged row. */
  lemma SinglePairMerge(f: FeedbackRecord, p: PatientRecord)
    requires f.patientId == p.patientId
    ensures Merge([f], [p], []) == [LeftJoined(Joined(f, p), None)]
  {
    var row := Joined(f, p);
    assert [f][1..] == [] && [p][1..] == [] && [row][1..] == [];
    assert Matching([p], PatientPatient, f.patientId) == [p];
    assert InnerBlock(f, [p], FeedbackPatient, PatientPatient) == [row];
    assert InnerJoin([f], [p], FeedbackPatient, PatientPatient) == [row];
    assert LeftBlock(row, [], RowDoctor, DoctorKey) == [LeftJoined(row, None)];
    assert LeftJoin([row], [], RowDoctor, DoctorKey) == [LeftJoined(row, None)];
  }
}
