/**
 * The feature and segmentation stage that runs on the warehouse table:
 * per-patient aggregation, recency against the latest visit, the choice of the
 * VIP cluster and the merge of each patient's label back onto every row.
 * Scaling and k-means clustering are not modelled; the cluster of each
 * patient is an input.
 */
module Features {
  import opened Wrappers
  import opened Joins
  import opened Groups
  import opened Etl

  /** A mean kept exact as its sum and count; with count 0 it is pandas' NaN. */
  datatype Mean = Mean(sum: int, count: nat)

  /** A row of agg_df as the group-by leaves it. */
  datatype Profile = Profile(
    patientId: string,
    avgSatisfaction: Mean,
    totalSpent: int,
    numTreatments: nat,
    lastVisit: Option<int>)

  // What each warehouse row contributes to the aggregates; `sum` and `mean` skip missing values.
  function SpentOf(r: ProcessedRecord): int { if r.totalCost.Some? then r.totalCost.value else 0 }
  function ScoreOf(r: ProcessedRecord): int { if r.feedback.feedbackScore.Some? then r.feedback.feedbackScore.value else 0 }
  function HasScore(r: ProcessedRecord): bool { r.feedback.feedbackScore.Some? }
  function ProfileSpent(p: Profile): int { p.totalSpent }

  /** The treatment_date column. */
  function TreatmentDates(g: seq<ProcessedRecord>): seq<Option<int>>
  {
    seq(|g|, i requires 0 <= i < |g| => g[i].patient.treatmentDate)
  }

  /** The distinct treatment_id_x values among some rows (`nunique`). */
  function DistinctTreatments(g: seq<ProcessedRecord>): (t: set<string>)
    ensures |t| <= |g|
    ensures g != [] ==> |t| >= 1
    ensures forall x :: x in t <==> exists i :: 0 <= i < |g| && g[i].TreatmentIdX() == x
  {
    if g == [] then {}
    else
      var rest := DistinctTreatments(g[1..]);
      DistinctTreatmentsCons(g, rest);
      {g[0].TreatmentIdX()} + rest
  }

  /** Adding the first row's treatment to the distinct treatments of the others. */
  lemma DistinctTreatmentsCons(g: seq<ProcessedRecord>, rest: set<string>)
    requires g != [] && |rest| <= |g[1..]|
    requires forall x :: x in rest <==> exists i :: 0 <= i < |g[1..]| && g[1..][i].TreatmentIdX() == x
    ensures var t := {g[0].TreatmentIdX()} + rest;
      && |t| <= |g| && |t| >= 1
      && forall x :: x in t <==> exists i :: 0 <= i < |g| && g[i].TreatmentIdX() == x
  {
    var t := {g[0].TreatmentIdX()} + rest;
    assert g[0].TreatmentIdX() in t;
    forall x | x in t ensures exists i :: 0 <= i < |g| && g[i].TreatmentIdX() == x {
      if x != g[0].TreatmentIdX() {
        var j :| 0 <= j < |g[1..]| && g[1..][j].TreatmentIdX() == x;
        assert g[j + 1] == g[1..][j];
      }
    }
    forall i | 0 <= i < |g| ensures g[i].TreatmentIdX() in t {
      if i > 0 {
        assert g[i] == g[1..][i - 1];
      }
    }
  }

  /** One agg_df row: the aggregates over the rows of patient `p`. */
  function ProfileOf(rows: seq<ProcessedRecord>, p: string): Profile
  {
    var g := Matching(rows, RecordPatient, p);
    Profile(p, Mean(SumOf(g, ScoreOf), Count(g, HasScore, true)), SumOf(g, SpentOf),
            |DistinctTreatments(g)|, MaxPresent(TreatmentDates(g)))
  }

  function ProfilesFor(rows: seq<ProcessedRecord>, ids: seq<string>): seq<Profile>
  {
    seq(|ids|, i requires 0 <= i < |ids| => ProfileOf(rows, ids[i]))
  }

  /** `df.groupby("patient_id").agg(...).reset_index()`: one profile per patient, by ascending patient_id. */
  function Aggregate(rows: seq<ProcessedRecord>): seq<Profile>
  {
    ProfilesFor(rows, GroupKeys(rows, RecordPatient))
  }

  /** A row's patient_id is one of the group keys. */
  lemma RowHasGroup(rows: seq<ProcessedRecord>, i: nat)
    requires i < |rows|
    ensures rows[i].PatientId() in GroupKeys(rows, RecordPatient)
  {
    GroupKeysSpec(rows, RecordPatient);
    assert rows[i] in Matching(rows, RecordPatient, rows[i].PatientId());
  }

  /**
   * The aggregate has one row per patient_id present in the input and no
   * other, in strictly ascending patient_id order; it is empty only when the
   * input is.
   */
  lemma AggregateOnePerPatient(rows: seq<ProcessedRecord>)
    ensures var agg := Aggregate(rows);
      && (|agg| == 0 <==> |rows| == 0)
      && (forall i, j :: 0 <= i < j < |agg| ==> Less(agg[i].patientId, agg[j].patientId))
      && (forall i, j :: 0 <= i < j < |agg| ==> agg[i].patientId != agg[j].patientId)
      && (forall p :: (exists i :: 0 <= i < |agg| && agg[i].patientId == p) <==> Count(rows, RecordPatient, p) > 0)
  {
    GroupKeysSpec(rows, RecordPatient);
    AggregateIds(rows);
    if rows != [] {
      RowHasGroup(rows, 0);
    }
    ProfilesInKeyOrder(Aggregate(rows), GroupKeys(rows, RecordPatient), rows);
  }

  /** Profiles whose patient_id column is the sorted list of distinct keys of `rows`. */
  lemma ProfilesInKeyOrder(agg: seq<Profile>, ids: seq<string>, rows: seq<ProcessedRecord>)
    requires |agg| == |ids| && forall i :: 0 <= i < |agg| ==> agg[i].patientId == ids[i]
    requires StrictlySorted(ids) && forall i, j :: 0 <= i < j < |ids| ==> ids[i] != ids[j]
    requires forall k :: k in ids <==> Count(rows, RecordPatient, k) > 0
    requires rows != [] ==> rows[0].PatientId() in ids
    ensures |agg| == 0 <==> |rows| == 0
    ensures forall i, j :: 0 <= i < j < |agg| ==> Less(agg[i].patientId, agg[j].patientId)
    ensures forall i, j :: 0 <= i < j < |agg| ==> agg[i].patientId != agg[j].patientId
    ensures forall p :: (exists i :: 0 <= i < |agg| && agg[i].patientId == p) <==> Count(rows, RecordPatient, p) > 0
  {
    forall p | Count(rows, RecordPatient, p) > 0 ensures exists i :: 0 <= i < |agg| && agg[i].patientId == p {
      var i :| 0 <= i < |ids| && ids[i] == p;
      assert agg[i].patientId == p;
    }
  }

  /** The aggregate's patient_id column is the list of group keys. */
  lemma AggregateIds(rows: seq<ProcessedRecord>)
    ensures |Aggregate(rows)| == |GroupKeys(rows, RecordPatient)|
    ensures forall i :: 0 <= i < |Aggregate(rows)| ==> Aggregate(rows)[i].patientId == GroupKeys(rows, RecordPatient)[i]
  {
  }

  /** The treatment_id_x values of patient `p`'s rows, as a set. */
  function TreatmentsOfPatient(rows: seq<ProcessedRecord>, p: string): set<string>
  {
    set r | r in rows && r.PatientId() == p :: r.TreatmentIdX()
  }

  /**
   * `num_treatments` counts the distinct treatment_id_x values of the
   * patient's rows: at least 1 and at most the number of rows, however the
   * merges fanned out.
   */
  lemma NumTreatmentsSpec(rows: seq<ProcessedRecord>, p: string)
    requires Count(rows, RecordPatient, p) > 0
    ensures ProfileOf(rows, p).numTreatments == |TreatmentsOfPatient(rows, p)|
    ensures 1 <= ProfileOf(rows, p).numTreatments <= Count(rows, RecordPatient, p)
  {
    var g := Matching(rows, RecordPatient, p);
    var t := DistinctTreatments(g);
    forall x ensures x in t <==> x in TreatmentsOfPatient(rows, p) {
      if x in t {
        var i :| 0 <= i < |g| && g[i].TreatmentIdX() == x;
        assert g[i] in g;
      }
      if x in TreatmentsOfPatient(rows, p) {
        var r :| r in rows && r.PatientId() == p && r.TreatmentIdX() == x;
        assert r in g;
        var i := IndexIn(g, r);
      }
    }
    assert t == TreatmentsOfPatient(rows, p);
  }

  /**
   * `last_visit` is the latest treatment_date among the patient's rows,
   * missing only when all of them are.
   */
  lemma LastVisitSpec(rows: seq<ProcessedRecord>, p: string)
    ensures var v := ProfileOf(rows, p).lastVisit;
      && (v.None? <==> forall r :: r in rows && r.PatientId() == p ==> r.patient.treatmentDate.None?)
      && (v.Some? ==> exists r :: r in rows && r.PatientId() == p && r.patient.treatmentDate == v)
      && (v.Some? ==> forall r :: r in rows && r.PatientId() == p && r.patient.treatmentDate.Some?
                        ==> r.patient.treatmentDate.value <= v.value)
  {
    var g := Matching(rows, RecordPatient, p);
    var dates := TreatmentDates(g);
    var v := MaxPresent(dates);
    assert ProfileOf(rows, p).lastVisit == v;
    forall r | r in rows && r.PatientId() == p ensures dates[IndexIn(g, r)] == r.patient.treatmentDate {
      assert r in g;
    }
    if v.Some? {
      var i :| 0 <= i < |dates| && dates[i] == v;
      assert g[i] in g;
    }
  }

  /** At most as many feedback scores go into `avg_satisfaction` as the patient has rows. */
  lemma SatisfactionSpec(rows: seq<ProcessedRecord>, p: string)
    ensures ProfileOf(rows, p).avgSatisfaction.count <= Count(rows, RecordPatient, p)
  {
    CountAtMost(Matching(rows, RecordPatient, p), HasScore, true);
  }

  /** The position of a member of a sequence. */
  function IndexIn(g: seq<ProcessedRecord>, r: ProcessedRecord): (i: nat)
    requires r in g
    ensures i < |g| && g[i] == r
  {
    if g[0] == r then 0 else 1 + IndexIn(g[1..], r)
  }

  lemma {:induction false} CountAtMost<T, K>(s: seq<T>, key: T -> K, k: K)
    ensures Count(s, key, k) <= |s|
  {
    if s != [] {
      CountAtMost(s[1..], key, k);
    }
  }

  lemma {:induction false} ProfilesSpent(rows: seq<ProcessedRecord>, ids: seq<string>)
    ensures SumOf(ProfilesFor(rows, ids), ProfileSpent) == GroupSums(rows, RecordPatient, ids, SpentOf)
  {
    if ids != [] {
      assert ProfilesFor(rows, ids)[1..] == ProfilesFor(rows, ids[1..]);
      ProfilesSpent(rows, ids[1..]);
    }
  }

  /**
   * `total_spent` loses and invents nothing: over all patients it adds up to
   * the sum of every present total_cost in the input.
   */
  lemma TotalSpentConservation(rows: seq<ProcessedRecord>)
    ensures SumOf(Aggregate(rows), ProfileSpent) == SumOf(rows, SpentOf)
  {
    var ids := GroupKeys(rows, RecordPatient);
    GroupKeysSpec(rows, RecordPatient);
    forall i | 0 <= i < |rows| ensures RecordPatient(rows[i]) in ids {
      RowHasGroup(rows, i);
    }
    ProfilesSpent(rows, ids);
    GroupSumsPartition(rows, RecordPatient, ids, SpentOf);
  }

  /** The last_visit column. */
  function LastVisits(agg: seq<Profile>): seq<Option<int>>
  {
    seq(|agg|, i requires 0 <= i < |agg| => agg[i].lastVisit)
  }

  /**
   * `(latest_date - last_visit).dt.days` with `latest_date = last_visit.max()`:
   * never negative, 0 for a patient seen on the latest date, missing exactly
   * where last_visit is.
   */
  function RecencyDays(lastVisit: seq<Option<int>>): (r: seq<Option<int>>)
    ensures |r| == |lastVisit|
    ensures forall i :: 0 <= i < |r| ==> (r[i].None? <==> lastVisit[i].None?)
    ensures forall i :: 0 <= i < |r| && r[i].Some? ==> r[i].value >= 0
    ensures forall i :: 0 <= i < |r| && r[i].Some? ==> r[i].value == MaxPresent(lastVisit).value - lastVisit[i].value
    ensures (exists i :: 0 <= i < |lastVisit| && lastVisit[i].Some?) ==> exists i :: 0 <= i < |r| && r[i] == Some(0)
  {
    var latest := MaxPresent(lastVisit);
    seq(|lastVisit|, i requires 0 <= i < |lastVisit| =>
      if lastVisit[i].Some? && latest.Some? then Some(latest.value - lastVisit[i].value) else None)
  }

  /** `latest_date`, the maximum of the per-patient maxima, is the latest treatment_date of any row. */
  lemma LatestDateIsLatestTreatment(rows: seq<ProcessedRecord>)
    ensures MaxPresent(LastVisits(Aggregate(rows))) == MaxPresent(TreatmentDates(rows))
  {
    var m, n := MaxPresent(TreatmentDates(rows)), MaxPresent(LastVisits(Aggregate(rows)));
    RowMaxAtMostVisitMax(rows);
    VisitMaxAtMostRowMax(rows);
    assert m.Some? <==> n.Some?;
  }

  lemma RowMaxAtMostVisitMax(rows: seq<ProcessedRecord>)
    ensures var m, n := MaxPresent(TreatmentDates(rows)), MaxPresent(LastVisits(Aggregate(rows)));
      m.Some? ==> n.Some? && m.value <= n.value
  {
    var agg := Aggregate(rows);
    var visits := LastVisits(agg);
    var dates := TreatmentDates(rows);
    var m := MaxPresent(dates);
    if m.Some? {
      var i :| 0 <= i < |dates| && dates[i] == m;
      assert dates[i] == rows[i].patient.treatmentDate;
      var j := VisitBoundsRow(rows, i);
      assert visits[j] == agg[j].lastVisit;
      MaxPresentAtLeast(visits, j);
    }
  }

  lemma VisitMaxAtMostRowMax(rows: seq<ProcessedRecord>)
    ensures var m, n := MaxPresent(TreatmentDates(rows)), MaxPresent(LastVisits(Aggregate(rows)));
      n.Some? ==> m.Some? && n.value <= m.value
  {
    var agg := Aggregate(rows);
    var visits := LastVisits(agg);
    var dates := TreatmentDates(rows);
    var n := MaxPresent(visits);
    if n.Some? {
      var j :| 0 <= j < |visits| && visits[j] == n;
      assert visits[j] == agg[j].lastVisit;
      var i := VisitIsRowDate(rows, j);
      assert dates[i] == rows[i].patient.treatmentDate;
      MaxPresentAtLeast(dates, i);
    }
  }

  /** A row's treatment_date is bounded by its patient's last_visit. */
  lemma VisitBoundsRow(rows: seq<ProcessedRecord>, i: nat) returns (j: nat)
    requires i < |rows| && rows[i].patient.treatmentDate.Some?
    ensures j < |Aggregate(rows)| && Aggregate(rows)[j].lastVisit.Some?
    ensures rows[i].patient.treatmentDate.value <= Aggregate(rows)[j].lastVisit.value
  {
    var ids := GroupKeys(rows, RecordPatient);
    RowHasGroup(rows, i);
    j :| 0 <= j < |ids| && ids[j] == rows[i].PatientId();
    assert rows[i] in rows;
    LastVisitSpec(rows, ids[j]);
  }

  /** A patient's last_visit is the treatment_date of one of the rows. */
  lemma VisitIsRowDate(rows: seq<ProcessedRecord>, j: nat) returns (i: nat)
    requires j < |Aggregate(rows)| && Aggregate(rows)[j].lastVisit.Some?
    ensures i < |rows| && rows[i].patient.treatmentDate == Aggregate(rows)[j].lastVisit
  {
    var ids := GroupKeys(rows, RecordPatient);
    LastVisitSpec(rows, ids[j]);
    var r :| r in rows && r.PatientId() == ids[j] && r.patient.treatmentDate == Aggregate(rows)[j].lastVisit;
    i :| 0 <= i < |rows| && rows[i] == r;
  }

  // ---- Choosing the VIP cluster ----

  const NClusters: nat := 2

  /** A label `KMeans(n_clusters=2)` assigns. */
  type ClusterId = c: nat | c < NClusters

  /** The total_spent of the patients in cluster `c`, added up. */
  function ClusterSum(spent: seq<int>, cluster: seq<ClusterId>, c: ClusterId): int
    requires |spent| == |cluster|
  {
    if cluster == [] then 0
    else (if cluster[0] == c then spent[0] else 0) + ClusterSum(spent[1..], cluster[1..], c)
  }

  /** How many patients are in cluster `c`. */
  function ClusterSize(cluster: seq<ClusterId>, c: ClusterId): nat
  {
    if cluster == [] then 0 else (if cluster[0] == c then 1 else 0) + ClusterSize(cluster[1..], c)
  }

  /** The mean total_spent of cluster `c` exceeds that of `d` (both non-empty), compared without division. */
  predicate MeanAbove(spent: seq<int>, cluster: seq<ClusterId>, c: ClusterId, d: ClusterId)
    requires |spent| == |cluster|
  {
    ClusterSum(spent, cluster, c) * ClusterSize(cluster, d) > ClusterSum(spent, cluster, d) * ClusterSize(cluster, c)
  }

  /**
   * What `groupby("cluster")["total_spent"].mean().idxmax()` returns: a
   * cluster that has patients, whose mean is not below any other's, and
   * strictly above that of every lower label (groups come in ascending label
   * order and the first maximum wins).
   */
  predicate IsVip(spent: seq<int>, cluster: seq<ClusterId>, v: ClusterId)
    requires |spent| == |cluster|
  {
    && ClusterSize(cluster, v) > 0
    && (forall d: ClusterId :: ClusterSize(cluster, d) > 0 ==> !MeanAbove(spent, cluster, d, v))
    && (forall d: ClusterId :: d < v && ClusterSize(cluster, d) > 0 ==> MeanAbove(spent, cluster, v, d))
  }

  /** The scan of idxmax from label `c` on, `best` being the first maximum among the labels before. */
  function VipFrom(spent: seq<int>, cluster: seq<ClusterId>, c: nat, best: Option<ClusterId>): Option<ClusterId>
    requires |spent| == |cluster|
    decreases NClusters - c
  {
    if c >= NClusters then best
    else if ClusterSize(cluster, c) == 0 then VipFrom(spent, cluster, c + 1, best)
    else if best.None? || MeanAbove(spent, cluster, c, best.value) then VipFrom(spent, cluster, c + 1, Some(c))
    else VipFrom(spent, cluster, c + 1, best)
  }

  /** The VIP cluster; none when there are no patients, where pandas' idxmax raises. */
  function VipCluster(spent: seq<int>, cluster: seq<ClusterId>): Option<ClusterId>
    requires |spent| == |cluster|
  {
    VipFrom(spent, cluster, 0, None)
  }

  /** Means compared by cross-multiplication are transitive: `a <= b < c` gives `a < c`. */
  lemma MeanOrderTrans(s1: int, n1: int, s2: int, n2: int, s3: int, n3: int)
    requires n1 > 0 && n2 > 0 && n3 > 0
    requires s1 * n2 <= s2 * n1 && s2 * n3 < s3 * n2
    ensures s1 * n3 < s3 * n1
  {
    assert s1 * n2 * n3 <= s2 * n1 * n3 by {
      MulMonotone(s1 * n2, s2 * n1, n3);
    }
    assert s2 * n3 * n1 < s3 * n2 * n1 by {
      MulStrict(s2 * n3, s3 * n2, n1);
    }
    assert (s1 * n3) * n2 < (s3 * n1) * n2;
    if s1 * n3 >= s3 * n1 {
      MulMonotone(s3 * n1, s1 * n3, n2);
      assert false;
    }
  }

  lemma MulMonotone(a: int, b: int, n: int)
    requires a <= b && n > 0
    ensures a * n <= b * n
  {
  }

  lemma MulStrict(a: int, b: int, n: int)
    requires a < b && n > 0
    ensures a * n < b * n
  {
  }

  /** What the scan knows after the labels below `c`. */
  predicate ScanInvariant(spent: seq<int>, cluster: seq<ClusterId>, c: nat, best: Option<ClusterId>)
    requires |spent| == |cluster|
  {
    && (best.None? <==> forall d: ClusterId :: d < c ==> ClusterSize(cluster, d) == 0)
    && (best.Some? ==>
          && best.value < c
          && ClusterSize(cluster, best.value) > 0
          && (forall d: ClusterId :: d < c && ClusterSize(cluster, d) > 0 ==> !MeanAbove(spent, cluster, d, best.value))
          && (forall d: ClusterId :: d < best.value && ClusterSize(cluster, d) > 0 ==> MeanAbove(spent, cluster, best.value, d)))
  }

  lemma {:induction false} VipFromSpec(spent: seq<int>, cluster: seq<ClusterId>, c: nat, best: Option<ClusterId>)
    requires |spent| == |cluster| && c <= NClusters
    requires ScanInvariant(spent, cluster, c, best)
    ensures ScanInvariant(spent, cluster, NClusters, VipFrom(spent, cluster, c, best))
    decreases NClusters - c
  {
    if c < NClusters {
      if ClusterSize(cluster, c) == 0 {
        ScanSkip(spent, cluster, c, best);
        VipFromSpec(spent, cluster, c + 1, best);
      } else if best.None? || MeanAbove(spent, cluster, c, best.value) {
        ScanTake(spent, cluster, c, best);
        VipFromSpec(spent, cluster, c + 1, Some(c));
      } else {
        ScanKeep(spent, cluster, c, best);
        VipFromSpec(spent, cluster, c + 1, best);
      }
    }
  }

  /** An empty label leaves the scan's knowledge as it was. */
  lemma ScanSkip(spent: seq<int>, cluster: seq<ClusterId>, c: nat, best: Option<ClusterId>)
    requires |spent| == |cluster| && c < NClusters
    requires ScanInvariant(spent, cluster, c, best) && ClusterSize(cluster, c) == 0
    ensures ScanInvariant(spent, cluster, c + 1, best)
  {
  }

  /** A label whose mean beats the current best (or the first non-empty label) becomes the best. */
  lemma ScanTake(spent: seq<int>, cluster: seq<ClusterId>, c: nat, best: Option<ClusterId>)
    requires |spent| == |cluster| && c < NClusters
    requires ScanInvariant(spent, cluster, c, best) && ClusterSize(cluster, c) > 0
    requires best.None? || MeanAbove(spent, cluster, c, best.value)
    ensures ScanInvariant(spent, cluster, c + 1, Some(c))
  {
    if best.Some? {
      var b: ClusterId := best.value;
      var nc := ClusterSize(cluster, c);
      var sc := ClusterSum(spent, cluster, c);
      forall d: ClusterId | d < c && ClusterSize(cluster, d) > 0
        ensures MeanAbove(spent, cluster, c, d)
      {
        MeanOrderTrans(ClusterSum(spent, cluster, d), ClusterSize(cluster, d),
                       ClusterSum(spent, cluster, b), ClusterSize(cluster, b), sc, nc);
      }
    }
  }

  /** A label whose mean does not beat the current best leaves the best in place. */
  lemma ScanKeep(spent: seq<int>, cluster: seq<ClusterId>, c: nat, best: Option<ClusterId>)
    requires |spent| == |cluster| && c < NClusters
    requires ScanInvariant(spent, cluster, c, best) && best.Some?
    requires !MeanAbove(spent, cluster, c, best.value)
    ensures ScanInvariant(spent, cluster, c + 1, best)
  {
  }

  lemma {:induction false} ClusterSizesAddUp(cluster: seq<ClusterId>)
    ensures ClusterSize(cluster, 0) + ClusterSize(cluster, 1) == |cluster|
  {
    if cluster != [] {
      ClusterSizesAddUp(cluster[1..]);
    }
  }

  /**
   * Exactly one cluster is VIP whenever there are patients: the cluster the
   * scan returns has the properties of `IsVip`, and any cluster that has them
   * is that one.
   */
  lemma VipClusterSpec(spent: seq<int>, cluster: seq<ClusterId>)
    requires |spent| == |cluster|
    ensures VipCluster(spent, cluster).None? <==> |cluster| == 0
    ensures VipCluster(spent, cluster).Some? ==> IsVip(spent, cluster, VipCluster(spent, cluster).value)
    ensures forall v: ClusterId :: IsVip(spent, cluster, v) ==> VipCluster(spent, cluster) == Some(v)
  {
    VipFromSpec(spent, cluster, 0, None);
    ClusterSizesAddUp(cluster);
    var r := VipCluster(spent, cluster);
    forall v: ClusterId | IsVip(spent, cluster, v) ensures r == Some(v) {
      var w: ClusterId := r.value;
      if w < v || v < w {
        assert false;
      }
    }
  }

  /** `"VIP" if x == vip_cluster else "Non-VIP"`. */
  function CustomerType(c: ClusterId, vip: ClusterId): (t: string)
    ensures t == "VIP" <==> c == vip
    ensures t == "VIP" || t == "Non-VIP"
  {
    if c == vip then "VIP" else "Non-VIP"
  }

  /** Whenever both clusters have patients and equal mean total_spent, label 0 is VIP. */
  lemma VipTieGoesToLowest(spent: seq<int>, cluster: seq<ClusterId>)
    requires |spent| == |cluster|
    requires ClusterSize(cluster, 0) > 0 && ClusterSize(cluster, 1) > 0
    requires ClusterSum(spent, cluster, 0) * ClusterSize(cluster, 1) == ClusterSum(spent, cluster, 1) * ClusterSize(cluster, 0)
    ensures VipCluster(spent, cluster) == Some(0)
  {
    VipClusterSpec(spent, cluster);
    forall d: ClusterId | ClusterSize(cluster, d) > 0 ensures !MeanAbove(spent, cluster, d, 0) {
      assert d == 0 || d == 1;
    }
    assert IsVip(spent, cluster, 0);
  }

  /** On spends [200, 100, 300] in clusters [1, 0, 0] the means tie at 200, and label 0 is VIP. */
  lemma VipTieExample()
    ensures VipCluster([200, 100, 300], [1, 0, 0]) == Some(0)
  {
    var spent: seq<int> := [200, 100, 300];
    var cluster: seq<ClusterId> := [1, 0, 0];
    assert ClusterSize(cluster, 0) == 2 && ClusterSum(spent, cluster, 0) == 400 by {
      assert cluster[1..] == [0, 0] && cluster[1..][1..] == [0] && cluster[1..][1..][1..] == [];
      assert spent[1..] == [100, 300] && spent[1..][1..] == [300] && spent[1..][1..][1..] == [];
    }
    assert ClusterSize(cluster, 1) == 1 && ClusterSum(spent, cluster, 1) == 200 by {
      assert cluster[1..] == [0, 0] && cluster[1..][1..] == [0] && cluster[1..][1..][1..] == [];
      assert spent[1..] == [100, 300] && spent[1..][1..] == [300] && spent[1..][1..][1..] == [];
    }
    assert !MeanAbove(spent, cluster, 1, 0);
  }

  // ---- Labels, the error paths and the merge back ----

  // The columns of agg_df.
  function PatientIds(agg: seq<Profile>): seq<string> { seq(|agg|, i requires 0 <= i < |agg| => agg[i].patientId) }
  function Satisfactions(agg: seq<Profile>): seq<Mean> { seq(|agg|, i requires 0 <= i < |agg| => agg[i].avgSatisfaction) }
  function TotalSpents(agg: seq<Profile>): seq<int> { seq(|agg|, i requires 0 <= i < |agg| => agg[i].totalSpent) }
  function TreatmentCounts(agg: seq<Profile>): seq<nat> { seq(|agg|, i requires 0 <= i < |agg| => agg[i].numTreatments) }

  /** The cluster column: each patient's cluster as the clustering assigns it. */
  function Clusters(ids: seq<string>, assign: string -> ClusterId): seq<ClusterId>
  {
    seq(|ids|, i requires 0 <= i < |ids| => assign(ids[i]))
  }

  /** The customer_type column. */
  function CustomerTypes(cluster: seq<ClusterId>, vip: ClusterId): seq<string>
  {
    seq(|cluster|, i requires 0 <= i < |cluster| => CustomerType(cluster[i], vip))
  }

  /** A row of `agg_df[["patient_id", "customer_type"]]`. */
  datatype PatientLabel = PatientLabel(patientId: string, customerType: string)

  function LabelKey(l: PatientLabel): string { l.patientId }

  function Labels(ids: seq<string>, types: seq<string>): seq<PatientLabel>
    requires |ids| == |types|
  {
    seq(|ids|, i requires 0 <= i < |ids| => PatientLabel(ids[i], types[i]))
  }

  /** A row of enriched_df: a warehouse row and its patient's label, if any. */
  type EnrichedRow = LeftJoined<ProcessedRecord, PatientLabel>

  /** `df.merge(agg_df[["patient_id", "customer_type"]], on="patient_id", how="left")`. */
  function MergeBack(rows: seq<ProcessedRecord>, labels: seq<PatientLabel>): seq<EnrichedRow>
  {
    LeftJoin(rows, labels, RecordPatient, LabelKey)
  }

  /** Why scaling and clustering raise instead of returning clusters. */
  datatype SegmentError =
    | NoSamples                 // the scaler refuses a table without rows
    | MissingFeature            // k-means refuses NaN: a patient without any feedback score or treatment date
    | FewerSamplesThanClusters  // two clusters need at least two patients

  /**
   * The checks the scaler and k-means make on the feature table, in the order
   * they make them: no rows, then NaN features, then fewer rows than clusters.
   */
  function FeatureError(satisfaction: seq<Mean>, recency: seq<Option<int>>): (e: Option<SegmentError>)
    requires |satisfaction| == |recency|
    ensures e.None? <==> |recency| >= NClusters && forall i :: 0 <= i < |recency| ==> satisfaction[i].count > 0 && recency[i].Some?
    ensures e == Some(NoSamples) <==> |recency| == 0
  {
    if |recency| == 0 then Some(NoSamples)
    else if exists i :: 0 <= i < |recency| && (satisfaction[i].count == 0 || recency[i].None?) then Some(MissingFeature)
    else if |recency| < NClusters then Some(FewerSamplesThanClusters)
    else None
  }

  /**
   * The feature stage from the warehouse rows to enriched_df, with the cluster
   * of each patient given by `assign`; or the error the clustering raises.
   */
  function Segment(rows: seq<ProcessedRecord>, assign: string -> ClusterId): Result<seq<EnrichedRow>, SegmentError>
  {
    var agg := Aggregate(rows);
    var recency := RecencyDays(LastVisits(agg));
    match FeatureError(Satisfactions(agg), recency)
    case Some(e) => Failure(e)
    case None =>
      var ids := PatientIds(agg);
      var cluster := Clusters(ids, assign);
      VipClusterSpec(TotalSpents(agg), cluster);
      var vip := VipCluster(TotalSpents(agg), cluster).value;
      Success(MergeBack(rows, Labels(ids, CustomerTypes(cluster, vip))))
  }

  /** The VIP cluster of a successful run. */
  function RunVip(rows: seq<ProcessedRecord>, assign: string -> ClusterId): ClusterId
    requires Segment(rows, assign).Success?
  {
    var agg := Aggregate(rows);
    var cluster := Clusters(PatientIds(agg), assign);
    VipClusterSpec(TotalSpents(agg), cluster);
    VipCluster(TotalSpents(agg), cluster).value
  }

  /** With distinct ids, the label found for one of them is the one built for it. */
  lemma LookupLabel(ids: seq<string>, cluster: seq<ClusterId>, vip: ClusterId, assign: string -> ClusterId, p: string)
    requires cluster == Clusters(ids, assign)
    requires p in ids
    ensures Lookup(Labels(ids, CustomerTypes(cluster, vip)), LabelKey, p)
      == Some(PatientLabel(p, CustomerType(assign(p), vip)))
  {
    var labels := Labels(ids, CustomerTypes(cluster, vip));
    var k :| 0 <= k < |ids| && ids[k] == p;
    assert labels[k] in Matching(labels, LabelKey, p);
    var l := Lookup(labels, LabelKey, p).value;
    var k' :| 0 <= k' < |labels| && labels[k'] == l;
  }

  /**
   * Merging labels keyed by distinct patient ids that cover every row keeps
   * the rows, each once, in place and unchanged, each beside its own
   * patient's label.
   */
  lemma MergeBackRows(rows: seq<ProcessedRecord>, ids: seq<string>, assign: string -> ClusterId, vip: ClusterId)
    requires forall i, j :: 0 <= i < j < |ids| ==> ids[i] != ids[j]
    requires forall i :: 0 <= i < |rows| ==> rows[i].PatientId() in ids
    ensures var out := MergeBack(rows, Labels(ids, CustomerTypes(Clusters(ids, assign), vip)));
      && |out| == |rows|
      && forall i :: 0 <= i < |rows| ==>
           out[i] == LeftJoined(rows[i], Some(PatientLabel(rows[i].PatientId(), CustomerType(assign(rows[i].PatientId()), vip))))
  {
    var cluster := Clusters(ids, assign);
    var labels := Labels(ids, CustomerTypes(cluster, vip));
    assert UniqueKeys(labels, LabelKey) by {
      forall i, j | 0 <= i < j < |labels| ensures LabelKey(labels[i]) != LabelKey(labels[j]) {
        assert labels[i].patientId == ids[i] && labels[j].patientId == ids[j];
      }
    }
    LeftJoinUnique(rows, labels, RecordPatient, LabelKey);
    forall i | 0 <= i < |rows|
      ensures Lookup(labels, LabelKey, rows[i].PatientId())
        == Some(PatientLabel(rows[i].PatientId(), CustomerType(assign(rows[i].PatientId()), vip)))
    {
      LookupLabel(ids, cluster, vip, assign, rows[i].PatientId());
    }
  }

  /**
   * The merge back on a successful run: enriched_df has the rows of the
   * warehouse table, each once, in place and unchanged, each beside its own
   * patient's label, which is "VIP" exactly for the patients of the VIP
   * cluster and "Non-VIP" for all others; and that cluster has the highest
   * mean total_spent, the lowest label winning a tie.
   */
  lemma MergeBackLaws(rows: seq<ProcessedRecord>, assign: string -> ClusterId)
    requires Segment(rows, assign).Success?
    ensures var agg := Aggregate(rows);
      IsVip(TotalSpents(agg), Clusters(PatientIds(agg), assign), RunVip(rows, assign))
    ensures |Segment(rows, assign).value| == |rows|
    ensures forall i :: 0 <= i < |rows| ==>
      Segment(rows, assign).value[i]
        == LeftJoined(rows[i], Some(PatientLabel(rows[i].PatientId(), CustomerType(assign(rows[i].PatientId()), RunVip(rows, assign)))))
  {
    var agg := Aggregate(rows);
    var ids := PatientIds(agg);
    var vip := RunVip(rows, assign);
    VipClusterSpec(TotalSpents(agg), Clusters(ids, assign));
    SegmentValue(rows, assign);
    PatientIdsCoverRows(rows);
    MergeBackRows(rows, ids, assign, vip);
  }

  /** The patient ids of the aggregate are distinct and cover every row. */
  lemma PatientIdsCoverRows(rows: seq<ProcessedRecord>)
    ensures var ids := PatientIds(Aggregate(rows));
      && (forall i, j :: 0 <= i < j < |ids| ==> ids[i] != ids[j])
      && (forall i :: 0 <= i < |rows| ==> rows[i].PatientId() in ids)
  {
    var ids := PatientIds(Aggregate(rows));
    assert ids == GroupKeys(rows, RecordPatient);
    GroupKeysSpec(rows, RecordPatient);
    forall i | 0 <= i < |rows| ensures rows[i].PatientId() in ids {
      RowHasGroup(rows, i);
    }
  }

  lemma SegmentValue(rows: seq<ProcessedRecord>, assign: string -> ClusterId)
    requires Segment(rows, assign).Success?
    ensures var ids := PatientIds(Aggregate(rows));
      var cluster := Clusters(ids, assign);
      Segment(rows, assign).value == MergeBack(rows, Labels(ids, CustomerTypes(cluster, RunVip(rows, assign))))
  {
  }

  // ---- When scaling and clustering refuse the table ----

  /** Some row of patient `p` carries a feedback score. */
  predicate PatientScored(rows: seq<ProcessedRecord>, p: string)
  {
    exists r :: r in rows && r.PatientId() == p && HasScore(r)
  }

  /** Some row of patient `p` carries a treatment date. */
  predicate PatientDated(rows: seq<ProcessedRecord>, p: string)
  {
    exists r :: r in rows && r.PatientId() == p && r.patient.treatmentDate.Some?
  }

  /** avg_satisfaction is NaN exactly for a patient none of whose rows has a score. */
  lemma ScoreCountSpec(rows: seq<ProcessedRecord>, p: string)
    ensures ProfileOf(rows, p).avgSatisfaction.count > 0 <==> PatientScored(rows, p)
  {
    var g := Matching(rows, RecordPatient, p);
    var m := Matching(g, HasScore, true);
    if PatientScored(rows, p) {
      var r :| r in rows && r.PatientId() == p && HasScore(r);
      assert r in g;
      assert r in m;
    }
    if |m| > 0 {
      assert m[0] in m;
    }
  }

  /** A patient of the aggregate owns a row of the input. */
  lemma GroupHasRow(rows: seq<ProcessedRecord>, i: nat) returns (r: ProcessedRecord)
    requires i < |GroupKeys(rows, RecordPatient)|
    ensures r in rows && r.PatientId() == GroupKeys(rows, RecordPatient)[i]
  {
    var ids := GroupKeys(rows, RecordPatient);
    GroupKeysSpec(rows, RecordPatient);
    assert ids[i] in ids;
    var g := Matching(rows, RecordPatient, ids[i]);
    assert g[0] in g;
    r := g[0];
  }

  /** Every feature of every patient is present exactly when each patient has a score and a date. */
  lemma FeaturesComplete(rows: seq<ProcessedRecord>)
    ensures var agg := Aggregate(rows);
      var sat, recency := Satisfactions(agg), RecencyDays(LastVisits(agg));
      (forall i :: 0 <= i < |recency| ==> sat[i].count > 0 && recency[i].Some?)
      <==> (forall r :: r in rows ==> PatientScored(rows, r.PatientId()) && PatientDated(rows, r.PatientId()))
  {
    var agg := Aggregate(rows);
    var ids := GroupKeys(rows, RecordPatient);
    var sat, recency := Satisfactions(agg), RecencyDays(LastVisits(agg));
    if forall i :: 0 <= i < |recency| ==> sat[i].count > 0 && recency[i].Some? {
      forall r | r in rows ensures PatientScored(rows, r.PatientId()) && PatientDated(rows, r.PatientId()) {
        var k :| 0 <= k < |rows| && rows[k] == r;
        RowHasGroup(rows, k);
        var i :| 0 <= i < |ids| && ids[i] == r.PatientId();
        assert sat[i].count > 0 && recency[i].Some?;
        ScoreCountSpec(rows, ids[i]);
        LastVisitSpec(rows, ids[i]);
      }
    }
    if forall r :: r in rows ==> PatientScored(rows, r.PatientId()) && PatientDated(rows, r.PatientId()) {
      forall i | 0 <= i < |recency| ensures sat[i].count > 0 && recency[i].Some? {
        var r := GroupHasRow(rows, i);
        ScoreCountSpec(rows, ids[i]);
        LastVisitSpec(rows, ids[i]);
      }
    }
  }

  /** The aggregate has at least two rows exactly when the input holds two different patients. */
  lemma TwoPatients(rows: seq<ProcessedRecord>)
    ensures |GroupKeys(rows, RecordPatient)| >= NClusters
      <==> exists r, s :: r in rows && s in rows && r.PatientId() != s.PatientId()
  {
    var ids := GroupKeys(rows, RecordPatient);
    GroupKeysSpec(rows, RecordPatient);
    if |ids| >= NClusters {
      var r := GroupHasRow(rows, 0);
      var s := GroupHasRow(rows, 1);
      assert r.PatientId() != s.PatientId();
    }
    if exists r, s :: r in rows && s in rows && r.PatientId() != s.PatientId() {
      var r, s :| r in rows && s in rows && r.PatientId() != s.PatientId();
      var k :| 0 <= k < |rows| && rows[k] == r;
      var l :| 0 <= l < |rows| && rows[l] == s;
      RowHasGroup(rows, k);
      RowHasGroup(rows, l);
      if |ids| < NClusters {
        assert false;
      }
    }
  }

  /**
   * The feature stage fails with NoSamples exactly on an empty table; it
   * fails with MissingFeature on a non-empty table when some patient has no
   * score or no date; and it succeeds exactly when the table holds two
   * different patients and each patient has a score and a date.
   */
  lemma SegmentErrors(rows: seq<ProcessedRecord>, assign: string -> ClusterId)
    ensures Segment(rows, assign) == Failure(NoSamples) <==> rows == []
    ensures rows != [] ==>
      (Segment(rows, assign) == Failure(MissingFeature)
       <==> exists r :: r in rows && !(PatientScored(rows, r.PatientId()) && PatientDated(rows, r.PatientId())))
    ensures Segment(rows, assign).Success?
      <==> (exists r, s :: r in rows && s in rows && r.PatientId() != s.PatientId())
           && forall r :: r in rows ==> PatientScored(rows, r.PatientId()) && PatientDated(rows, r.PatientId())
  {
    var agg := Aggregate(rows);
    var sat, recency := Satisfactions(agg), RecencyDays(LastVisits(agg));
    FeaturesComplete(rows);
    TwoPatients(rows);
    AggregateOnePerPatient(rows);
    assert |recency| == |GroupKeys(rows, RecordPatient)|;
  }

  // ---- agg_df, which the script extends column by column ----

  /** agg_df: the aggregate columns, then the columns the script adds to it (None while absent). */
  class AggFrame {
    var patientId: seq<string>
    var avgSatisfaction: seq<Mean>
    var totalSpent: seq<int>
    var numTreatments: seq<nat>
    var lastVisit: Option<seq<Option<int>>>
    var recencyDays: Option<seq<Option<int>>>
    var cluster: Option<seq<ClusterId>>
    var customerType: Option<seq<string>>

    /** The frame as the group-by and `reset_index` leave it. */
    constructor GroupBy(rows: seq<ProcessedRecord>)
      ensures var agg := Aggregate(rows);
        && patientId == PatientIds(agg) && avgSatisfaction == Satisfactions(agg)
        && totalSpent == TotalSpents(agg) && numTreatments == TreatmentCounts(agg)
        && lastVisit == Some(LastVisits(agg))
        && recencyDays == None && cluster == None && customerType == None
    {
      var agg := Aggregate(rows);
      patientId := PatientIds(agg);
      avgSatisfaction := Satisfactions(agg);
      totalSpent := TotalSpents(agg);
      numTreatments := TreatmentCounts(agg);
      lastVisit := Some(LastVisits(agg));
      recencyDays := None;
      cluster := None;
      customerType := None;
    }

    /** recency_days added: the latest last_visit is found first, then each patient's distance to it. */
    method AddRecency()
      requires lastVisit.Some?
      modifies this
      ensures lastVisit == old(lastVisit) && cluster == old(cluster) && customerType == old(customerType)
      ensures recencyDays == Some(RecencyDays(lastVisit.value))
      ensures patientId == old(patientId) && avgSatisfaction == old(avgSatisfaction)
      ensures totalSpent == old(totalSpent) && numTreatments == old(numTreatments)
    {
      var col := lastVisit.value;
      var latest: Option<int> := None;
      var i := 0;
      while i < |col|
        invariant 0 <= i <= |col|
        invariant latest == MaxPresent(col[..i])
      {
        assert col[..i + 1][..i] == col[..i];
        latest := MaxWith(latest, col[i]);
        i := i + 1;
      }
      assert col[..|col|] == col;
      var days: seq<Option<int>> := [];
      i := 0;
      while i < |col|
        invariant 0 <= i <= |col| && |days| == i
        invariant forall j :: 0 <= j < i ==> days[j] == RecencyDays(col)[j]
      {
        days := days + [if col[i].Some? && latest.Some? then Some(latest.value - col[i].value) else None];
        i := i + 1;
      }
      assert days == RecencyDays(col);
      recencyDays := Some(days);
    }

    /** `drop(columns=["last_visit"])`. */
    method DropLastVisit()
      modifies this
      ensures lastVisit == None
      ensures recencyDays == old(recencyDays) && cluster == old(cluster) && customerType == old(customerType)
      ensures patientId == old(patientId) && avgSatisfaction == old(avgSatisfaction)
      ensures totalSpent == old(totalSpent) && numTreatments == old(numTreatments)
    {
      lastVisit := None;
    }

    /**
     * Scaling and `fit_predict`: the error they raise on these features, or
     * the cluster column, each patient's cluster being `assign` of its id.
     */
    method FitPredict(assign: string -> ClusterId) returns (err: Option<SegmentError>)
      requires recencyDays.Some? && |recencyDays.value| == |avgSatisfaction|
      modifies this
      ensures lastVisit == old(lastVisit) && recencyDays == old(recencyDays) && customerType == old(customerType)
      ensures patientId == old(patientId) && avgSatisfaction == old(avgSatisfaction)
      ensures totalSpent == old(totalSpent) && numTreatments == old(numTreatments)
      ensures err == FeatureError(avgSatisfaction, recencyDays.value)
      ensures cluster == if err.None? then Some(Clusters(patientId, assign)) else old(cluster)
    {
      err := FeatureError(avgSatisfaction, recencyDays.value);
      if err.None? {
        cluster := Some(Clusters(patientId, assign));
      }
    }

    /** customer_type added: "VIP" for the patients of the VIP cluster, "Non-VIP" for the rest. */
    method AddCustomerType()
      requires cluster.Some? && |cluster.value| == |totalSpent| && |totalSpent| > 0
      modifies this
      ensures lastVisit == old(lastVisit) && recencyDays == old(recencyDays) && cluster == old(cluster)
      ensures patientId == old(patientId) && avgSatisfaction == old(avgSatisfaction)
      ensures totalSpent == old(totalSpent) && numTreatments == old(numTreatments)
      ensures VipCluster(totalSpent, cluster.value).Some?
      ensures customerType == Some(CustomerTypes(cluster.value, VipCluster(totalSpent, cluster.value).value))
    {
      var c := cluster.value;
      VipClusterSpec(totalSpent, c);
      var vip := VipCluster(totalSpent, c).value;
      var types: seq<string> := [];
      var i := 0;
      while i < |c|
        invariant 0 <= i <= |c| && |types| == i
        invariant forall j :: 0 <= j < i ==> types[j] == CustomerType(c[j], vip)
      {
        types := types + [if c[i] == vip then "VIP" else "Non-VIP"];
        i := i + 1;
      }
      assert types == CustomerTypes(c, vip);
      customerType := Some(types);
    }

    /** `agg_df[["patient_id", "customer_type"]]`. */
    function LabelRows(): seq<PatientLabel>
      reads this
      requires customerType.Some? && |customerType.value| == |patientId|
    {
      Labels(patientId, customerType.value)
    }
  }

  /** The feature stage as the script runs it, on agg_df step by step. */
  method RunSegmentation(rows: seq<ProcessedRecord>, assign: string -> ClusterId)
    returns (r: Result<seq<EnrichedRow>, SegmentError>)
    ensures r == Segment(rows, assign)
  {
    var aggDf := new AggFrame.GroupBy(rows);
    aggDf.AddRecency();
    aggDf.DropLastVisit();
    var err := aggDf.FitPredict(assign);
    if err.Some? {
      return Failure(err.value);
    }
    aggDf.AddCustomerType();
    r := Success(MergeBack(rows, aggDf.LabelRows()));
  }
}
