/** Which complaint a rejected batch raises, told from its rows. */
module RiskFaults {
  import opened Wrappers
  import opened Ordering
  import opened RiskRise
  import opened RiskDetection
  import opened RiskOrder
  import opened RiskBatch

  // ----- the order in which rows are scanned -----

  function TimeAt(points: seq<Point>, i: nat): int {
    if i < |points| then points[i].observedAt else 0
  }

  /** By time, and rows of one time in the order of the batch. */
  predicate Earlier(points: seq<Point>, i: nat, j: nat) {
    TimeAt(points, i) < TimeAt(points, j) || (TimeAt(points, i) == TimeAt(points, j) && i < j)
  }

  ghost predicate Ascends(points: seq<Point>, at: seq<nat>) {
    forall j, k :: 0 <= j < k < |at| ==> Earlier(points, at[j], at[k])
  }

  /** The positions of the asset's eligible rows in the batch, as they are scanned. */
  ghost predicate ScanOrder(p: Policy, points: seq<Point>, a: string, at: seq<nat>) {
    && (forall i: nat :: i in at <==> i < |points| && points[i].assetType in p.eligible && points[i].assetId == a)
    && Ascends(points, at)
  }

  ghost predicate Within(points: seq<Point>, at: seq<nat>) {
    forall k :: 0 <= k < |at| ==> at[k] < |points|
  }

  ghost function RowsAt(points: seq<Point>, at: seq<nat>): seq<Point>
    requires Within(points, at)
  {
    seq(|at|, k requires 0 <= k < |at| => points[at[k]])
  }

  lemma {:induction false} GroupPositions(p: Policy, points: seq<Point>, a: string) returns (at: seq<nat>)
    ensures Within(points, at) && Group(p, points, a) == RowsAt(points, at)
    ensures forall j, k :: 0 <= j < k < |at| ==> at[j] < at[k]
    ensures forall i: nat :: i in at <==> i < |points| && points[i].assetType in p.eligible && points[i].assetId == a
  {
    if points == [] {
      at := [];
    } else {
      var last := |points| - 1;
      at := GroupPositions(p, points[..last], a);
      if Eligible(p, points[last]) && points[last].assetId == a { at := at + [last]; }
    }
  }

  function ByTimeAt(points: seq<Point>): (nat, nat) -> bool {
    (i: nat, j: nat) => TimeAt(points, i) <= TimeAt(points, j)
  }

  /** Sorting the rows is sorting their positions. */
  lemma {:induction false} InsertAt(points: seq<Point>, i: nat, at: seq<nat>)
    requires i < |points| && Within(points, at)
    ensures var sorted := Insert(i, at, ByTimeAt(points));
      Within(points, sorted) && RowsAt(points, sorted) == Insert(points[i], RowsAt(points, at), ByTime)
  {
    if at != [] && !ByTimeAt(points)(i, at[0]) {
      InsertAt(points, i, at[1..]);
      assert RowsAt(points, at)[1..] == RowsAt(points, at[1..]);
    }
  }

  lemma {:induction false} SortAt(points: seq<Point>, at: seq<nat>)
    requires Within(points, at)
    ensures var sorted := SortBy(at, ByTimeAt(points));
      Within(points, sorted) && RowsAt(points, sorted) == SortBy(RowsAt(points, at), ByTime)
  {
    if at != [] {
      SortAt(points, at[1..]);
      InsertAt(points, at[0], SortBy(at[1..], ByTimeAt(points)));
      assert RowsAt(points, at)[1..] == RowsAt(points, at[1..]);
    }
  }

  /** A position that is put in front of equal times comes before all later positions of that time. */
  lemma {:induction false} InsertAscends(points: seq<Point>, i: nat, at: seq<nat>)
    requires Ascends(points, at) && forall j :: j in at ==> i < j
    ensures Ascends(points, Insert(i, at, ByTimeAt(points)))
    ensures forall j :: j in Insert(i, at, ByTimeAt(points)) <==> j == i || j in at
  {
    if at != [] && !ByTimeAt(points)(i, at[0]) {
      var rest := at[1..];
      forall j, k | 0 <= j < k < |rest| ensures Earlier(points, rest[j], rest[k]) {
        assert rest[j] == at[j + 1] && rest[k] == at[k + 1];
      }
      forall j | j in rest ensures i < j {
        assert j in at;
      }
      InsertAscends(points, i, rest);
      var more := Insert(i, rest, ByTimeAt(points));
      forall k | 0 <= k < |more| ensures Earlier(points, at[0], more[k]) {
        assert more[k] in more;
        if more[k] != i { var m :| 0 <= m < |rest| && rest[m] == more[k]; assert rest[m] == at[m + 1]; }
      }
      assert Insert(i, at, ByTimeAt(points)) == [at[0]] + more;
    } else {
      forall k | 0 <= k < |at| ensures Earlier(points, i, at[k]) {
        assert at[k] in at;
        assert k > 0 ==> Earlier(points, at[0], at[k]);
      }
      assert Insert(i, at, ByTimeAt(points)) == [i] + at;
    }
  }

  lemma {:induction false} SortAscends(points: seq<Point>, at: seq<nat>)
    requires forall j, k :: 0 <= j < k < |at| ==> at[j] < at[k]
    ensures Ascends(points, SortBy(at, ByTimeAt(points)))
    ensures forall i :: i in SortBy(at, ByTimeAt(points)) <==> i in at
  {
    if at != [] {
      var rest := at[1..];
      SortAscends(points, rest);
      forall j | j in rest ensures at[0] < j {
        var m :| 0 <= m < |rest| && rest[m] == j;
        assert rest[m] == at[m + 1];
      }
      InsertAscends(points, at[0], SortBy(rest, ByTimeAt(points)));
      assert at == [at[0]] + rest;
    }
  }

  function NotLater(points: seq<Point>): (nat, nat) -> bool {
    (i: nat, j: nat) => i == j || Earlier(points, i, j)
  }

  lemma OneScanOrder(p: Policy, points: seq<Point>, a: string, at: seq<nat>, other: seq<nat>)
    requires ScanOrder(p, points, a, at) && ScanOrder(p, points, a, other)
    ensures at == other
  {
    forall i, j ensures Earlier(points, i, j) ==> i != j {}
    SameMembers(at, other);
    SortedUnique(at, other, NotLater(points));
  }

  /** The asset's rows as they are scanned. */
  ghost predicate ScannedAs(p: Policy, points: seq<Point>, a: string, s: seq<Point>) {
    exists at :: ScanOrder(p, points, a, at) && |s| == |at| && forall k :: 0 <= k < |at| ==> at[k] < |points| && s[k] == points[at[k]]
  }

  /** The timeline is the one such list. */
  lemma TimelineIsTold(p: Policy, points: seq<Point>, a: string, s: seq<Point>)
    ensures ScannedAs(p, points, a, s) <==> s == Timeline(p, points, a)
  {
    var group := GroupPositions(p, points, a);
    var at := SortBy(group, ByTimeAt(points));
    SortAt(points, group);
    SortAscends(points, group);
    assert ScanOrder(p, points, a, at);
    if other :| ScanOrder(p, points, a, other) && |s| == |other| && forall k :: 0 <= k < |other| ==> other[k] < |points| && s[k] == points[other[k]] {
      OneScanOrder(p, points, a, at, other);
      assert s == RowsAt(points, at);
    }
  }

  // ----- complaints -----

  /** Row `k` and the one before it give rise to this complaint about the asset. */
  predicate Complains(a: string, s: seq<Point>, k: nat, f: Fault) {
    && 1 <= k < |s|
    && var x, y := s[k - 1], s[k];
      match f
      case AssetTypeChanged(b) => b == a && x.assetType != y.assetType
      case ModelVersionChanged(b) => b == a && x.assetType == y.assetType && x.modelVersion != y.modelVersion
      case DuplicateTime(b) => b == a && x.assetType == y.assetType && x.modelVersion == y.modelVersion && x.observedAt == y.observedAt
  }

  /** From row `k - 1` to row `k` type and model stay and the time moves on. */
  predicate GoesOn(s: seq<Point>, k: nat) {
    1 <= k < |s| && s[k - 1].assetType == s[k].assetType && s[k - 1].modelVersion == s[k].modelVersion && s[k - 1].observedAt != s[k].observedAt
  }

  /** The complaint is about the first two rows that do not go on. */
  ghost predicate ComplainsFirst(a: string, s: seq<Point>, k: nat, f: Fault) {
    Complains(a, s, k, f) && forall j: nat :: 1 <= j < k ==> GoesOn(s, j)
  }

  ghost predicate NoComplaint(s: seq<Point>) {
    forall k: nat :: 1 <= k < |s| ==> GoesOn(s, k)
  }

  /** The batch is rejected for this asset: it is the first by name whose rows give rise to a complaint. */
  ghost predicate RejectedFor(p: Policy, points: seq<Point>, a: string, f: Fault) {
    && (exists s, k: nat :: ScannedAs(p, points, a, s) && ComplainsFirst(a, s, k, f))
    && forall b, s :: b != a && LexLe(b, a) && ScannedAs(p, points, b, s) ==> NoComplaint(s)
  }

  lemma PairIsTold(a: string, s: seq<Point>, k: nat, f: Fault)
    requires 1 <= k < |s|
    ensures PairFault(a, s[k - 1], s[k]) == Some(f) <==> Complains(a, s, k, f)
    ensures PairFault(a, s[k - 1], s[k]) == None <==> GoesOn(s, k)
  {
  }

  lemma {:induction false} FirstFaultIsTold(a: string, s: seq<Point>, i: nat, f: Fault)
    requires 1 <= i
    ensures FirstFault(a, s, i) == Some(f) <==> exists k: nat :: i <= k && Complains(a, s, k, f) && forall j: nat :: i <= j < k ==> GoesOn(s, j)
    ensures FirstFault(a, s, i) == None <==> forall k: nat :: i <= k < |s| ==> GoesOn(s, k)
    decreases |s| - i
  {
    if i < |s| {
      PairIsTold(a, s, i, f);
      FirstFaultIsTold(a, s, i + 1, f);
      if GoesOn(s, i) {
        ComplaintFurtherOn(a, s, i, f);
      } else if k: nat :| i <= k && Complains(a, s, k, f) && forall j: nat :: i <= j < k ==> GoesOn(s, j) {
        assert k == i;
      }
    }
  }

  lemma ComplaintFurtherOn(a: string, s: seq<Point>, i: nat, f: Fault)
    requires GoesOn(s, i)
    ensures (exists k: nat :: i <= k && Complains(a, s, k, f) && forall j: nat :: i <= j < k ==> GoesOn(s, j))
       <==> exists k: nat :: i + 1 <= k && Complains(a, s, k, f) && forall j: nat :: i + 1 <= j < k ==> GoesOn(s, j)
  {
    assert !Complains(a, s, i, f);
    if k: nat :| i <= k && Complains(a, s, k, f) && forall j: nat :: i <= j < k ==> GoesOn(s, j) {
      assert i + 1 <= k;
    }
    if k: nat :| i + 1 <= k && Complains(a, s, k, f) && forall j: nat :: i + 1 <= j < k ==> GoesOn(s, j) {
      assert forall j: nat :: i <= j < k ==> GoesOn(s, j);
    }
  }

  lemma AssetFault(p: Policy, points: seq<Point>, a: string, f: Fault)
    ensures FirstFault(a, Timeline(p, points, a), 1) == Some(f) <==> exists s, k: nat :: ScannedAs(p, points, a, s) && ComplainsFirst(a, s, k, f)
    ensures FirstFault(a, Timeline(p, points, a), 1) == None <==> forall s :: ScannedAs(p, points, a, s) ==> NoComplaint(s)
  {
    var rows := Timeline(p, points, a);
    FirstFaultIsTold(a, rows, 1, f);
    forall s ensures ScannedAs(p, points, a, s) <==> s == rows {
      TimelineIsTold(p, points, a, s);
    }
    assert ScannedAs(p, points, a, rows);
    if k: nat :| 1 <= k && Complains(a, rows, k, f) && forall j: nat :: 1 <= j < k ==> GoesOn(rows, j) {
      assert ComplainsFirst(a, rows, k, f);
    }
  }

  /** Asset number `n` is the first with a complaint. */
  ghost predicate FirstFaulty(p: Policy, points: seq<Point>, ids: seq<string>, n: nat, f: Fault) {
    && n < |ids| && FirstFault(ids[n], Timeline(p, points, ids[n]), 1) == Some(f)
    && forall m :: 0 <= m < n ==> FirstFault(ids[m], Timeline(p, points, ids[m]), 1) == None
  }

  lemma {:induction false} DetectRaisesFirst(iso: int -> string, p: Policy, points: seq<Point>, ids: seq<string>, f: Fault)
    ensures DetectAssets(iso, p, points, ids) == Err(f) <==> exists n: nat :: FirstFaulty(p, points, ids, n, f)
  {
    if ids != [] {
      var rest := ids[1..];
      DetectRaisesFirst(iso, p, points, rest, f);
      if FirstFault(ids[0], Timeline(p, points, ids[0]), 1) == None {
        if n: nat :| FirstFaulty(p, points, rest, n, f) {
          assert FirstFaulty(p, points, ids, n + 1, f);
        }
        if n: nat :| FirstFaulty(p, points, ids, n, f) {
          assert FirstFaulty(p, points, rest, n - 1, f);
        }
      } else if DetectAssets(iso, p, points, ids) == Err(f) {
        assert FirstFaulty(p, points, ids, 0, f);
      }
    }
  }

  /** Detection raises a complaint exactly when the batch is rejected for that complaint, about some asset. */
  lemma DetectionRaises(iso: int -> string, p: Policy, points: seq<Point>, f: Fault)
    ensures Detect(iso, p, points) == Err(f) <==> exists a :: RejectedFor(p, points, a, f)
  {
    var ids := SortBy(Assets(p, points), LexLe);
    NamedAssets(p, points);
    DetectRaisesFirst(iso, p, points, ids, f);
    if n: nat :| FirstFaulty(p, points, ids, n, f) {
      AssetFault(p, points, ids[n], f);
      forall b, s | b != ids[n] && LexLe(b, ids[n]) && ScannedAs(p, points, b, s) ensures NoComplaint(s) {
        BeforeIsFine(p, points, ids, n, f, b);
        AssetFault(p, points, b, f);
      }
      assert RejectedFor(p, points, ids[n], f);
    }
    if a :| RejectedFor(p, points, a, f) {
      AssetFault(p, points, a, f);
      var n := IndexOfAsset(p, points, ids, a, f);
      forall m | 0 <= m < n ensures FirstFault(ids[m], Timeline(p, points, ids[m]), 1) == None {
        AssetFault(p, points, ids[m], f);
      }
      assert FirstFaulty(p, points, ids, n, f);
    }
  }

  lemma IndexOfAsset(p: Policy, points: seq<Point>, ids: seq<string>, a: string, f: Fault) returns (n: nat)
    requires forall b :: b in ids <==> HasRows(p, points, b)
    requires FirstFault(a, Timeline(p, points, a), 1) == Some(f)
    ensures n < |ids| && ids[n] == a
  {
    var s := Timeline(p, points, a);
    assert |s| > 1;
    assert s[0] in s;
    TimelineRows(p, points, a, s[0]);
    assert HasRows(p, points, a) && a in ids;
    n :| n < |ids| && ids[n] == a;
  }

  lemma BeforeIsFine(p: Policy, points: seq<Point>, ids: seq<string>, n: nat, f: Fault, b: string)
    requires Distinct(ids) && SortedBy(ids, LexLe) && forall a :: a in ids <==> HasRows(p, points, a)
    requires FirstFaulty(p, points, ids, n, f) && b != ids[n] && LexLe(b, ids[n])
    ensures FirstFault(b, Timeline(p, points, b), 1) == None
  {
    if b in ids {
      var m :| 0 <= m < |ids| && ids[m] == b;
      if n < m {
        LexTotal(b, ids[n]);
      }
    } else {
      var s := Timeline(p, points, b);
      if |s| > 1 {
        assert s[0] in s;
        TimelineRows(p, points, b, s[0]);
      }
    }
  }
}
