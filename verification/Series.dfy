/** The in-window aggregate of one time series, and the records it stands for. */
module SeriesModel {
  import opened Prelude
  import opened ErrorLabels
  import opened BoundedCounters
  import opened SketchMapping
  import opened SketchBuckets
  import opened SparseBuckets
  import opened DDSketches
  import opened MapSums

  const MAX_STATUS_CODES: nat := 20
  const MAX_ERROR_CLASSES: nat := 20
  const MAX_ERROR_EXEMPLARS: nat := 2
  const NO_STATUS_OTHER: nat := 5

  /** One completed request; atMs is the wall clock stamped when it is observed. */
  datatype Record = Record(
    verb: seq<Byte>, route: seq<Byte>, status: int,
    durationNs: int, reqBytes: int, respBytes: int, downstreamNs: int,
    traceId: seq<Byte>, spanId: seq<Byte>, requestId: seq<Byte>,
    errorClass: seq<Byte>, noStatusReason: nat, atMs: int)

  datatype Exemplar = Exemplar(
    atMs: int, durationNs: nat, statusCode: nat,
    traceId: seq<Byte>, spanId: seq<Byte>, requestId: seq<Byte>)

  /** The larger of x and zero. */
  function NonNegative(x: int): (n: nat)
    ensures x <= n && (n == x || n == 0)
  {
    if x > 0 then x else 0
  }

  /** uint32(status) for a positive status: the same residue modulo 2^32, and 0 for none. */
  function CodeOf(status: int): (code: nat)
    ensures code < 0x1_0000_0000
    ensures 0 < status < 0x1_0000_0000 ==> code == status
    ensures status > 0 ==> (status - code) % 0x1_0000_0000 == 0
    ensures status <= 0 ==> code == 0
  {
    if status > 0 then status % 0x1_0000_0000 else 0
  }

  function ExemplarOf(r: Record): (e: Exemplar)
    ensures e.traceId == r.traceId && e.spanId == r.spanId && e.requestId == r.requestId && e.atMs == r.atMs
    ensures r.durationNs <= e.durationNs && (e.durationNs == 0 || e.durationNs == r.durationNs)
    ensures 0 < r.status < 0x1_0000_0000 ==> e.statusCode == r.status
  {
    Exemplar(r.atMs, NonNegative(r.durationNs), CodeOf(r.status), r.traceId, r.spanId, r.requestId)
  }

  predicate IsError(status: int) { status <= 0 || status >= 400 }

  /** Seconds of a duration given in nanoseconds. */
  function Seconds(r: Record): (x: real)
    ensures x * 1000.0 * 1000.0 * 1000.0 == r.durationNs as real
  {
    r.durationNs as real / 1000000000.0
  }

  // ---------- what a list of records adds up to ----------

  datatype Field = Duration | ReqBytes | RespBytes | Downstream

  function Get(r: Record, f: Field): int {
    match f
    case Duration => r.durationNs
    case ReqBytes => r.reqBytes
    case RespBytes => r.respBytes
    case Downstream => r.downstreamNs
  }

  function SumPositive(rs: seq<Record>, f: Field): nat {
    if rs == [] then 0 else SumPositive(rs[..|rs| - 1], f) + NonNegative(Get(rs[|rs| - 1], f))
  }

  function AllSeconds(rs: seq<Record>): (xs: seq<real>)
    ensures |xs| == |rs|
  {
    if rs == [] then [] else AllSeconds(rs[..|rs| - 1]) + [Seconds(rs[|rs| - 1])]
  }

  /** The status codes written, in order. */
  function Codes(rs: seq<Record>): seq<nat> {
    if rs == [] then []
    else
      var r := rs[|rs| - 1];
      Codes(rs[..|rs| - 1]) + if r.status > 0 then [CodeOf(r.status)] else []
  }

  /** A reason past the known ones counts as the last of them. */
  function ReasonOf(reason: nat): (k: nat)
    ensures k <= reason && k <= NO_STATUS_OTHER && (k == reason || k == NO_STATUS_OTHER)
  {
    if reason > NO_STATUS_OTHER then NO_STATUS_OTHER else reason
  }

  /** The reasons of the requests that wrote no status, in order. */
  function Reasons(rs: seq<Record>): seq<nat> {
    if rs == [] then []
    else
      var r := rs[|rs| - 1];
      Reasons(rs[..|rs| - 1]) + if r.status <= 0 then [ReasonOf(r.noStatusReason)] else []
  }

  /** The non-empty normalized error labels, in order. */
  ghost function Labels(rs: seq<Record>): seq<seq<Byte>> {
    if rs == [] then []
    else
      var errLabel := Sanitize(rs[|rs| - 1].errorClass);
      Labels(rs[..|rs| - 1]) + if errLabel != [] then [errLabel] else []
  }

  /** The exemplars of all error records, in order. */
  function Errors(rs: seq<Record>): seq<Exemplar> {
    if rs == [] then []
    else
      var r := rs[|rs| - 1];
      Errors(rs[..|rs| - 1]) + if IsError(r.status) then [ExemplarOf(r)] else []
  }

  function FirstTwo(es: seq<Exemplar>): seq<Exemplar> {
    if |es| <= MAX_ERROR_EXEMPLARS then es else es[..MAX_ERROR_EXEMPLARS]
  }

  function DurationOf(r: Record): nat { NonNegative(r.durationNs) }

  /** Record i is the first of those with the longest duration. */
  ghost predicate IsSlowest(rs: seq<Record>, i: nat) {
    && i < |rs|
    && (forall j :: 0 <= j < |rs| ==> DurationOf(rs[j]) <= DurationOf(rs[i]))
    && (forall j :: 0 <= j < i ==> DurationOf(rs[j]) < DurationOf(rs[i]))
  }

  function SlowestIndex(rs: seq<Record>): (i: nat)
    requires rs != []
    ensures i < |rs|
  {
    if |rs| == 1 then 0
    else
      var i := SlowestIndex(rs[..|rs| - 1]);
      if DurationOf(rs[|rs| - 1]) > DurationOf(rs[i]) then |rs| - 1 else i
  }

  lemma {:induction false} SlowestIsFirstMaximum(rs: seq<Record>)
    requires rs != []
    ensures IsSlowest(rs, SlowestIndex(rs))
  {
    if |rs| > 1 {
      var pre := rs[..|rs| - 1];
      SlowestIsFirstMaximum(pre);
      assert forall j :: 0 <= j < |pre| ==> rs[j] == pre[j];
    }
  }

  function Slowest(rs: seq<Record>): Option<Exemplar> {
    if rs == [] then None else Some(ExemplarOf(rs[SlowestIndex(rs)]))
  }

  function MaxDuration(rs: seq<Record>): nat {
    if rs == [] then 0 else DurationOf(rs[SlowestIndex(rs)])
  }

  // ---------- the aggregate as a value ----------

  datatype Aggregate = Aggregate(
    count: nat, sumDurationNs: nat, reqBytes: nat, respBytes: nat, sumDownstreamNs: nat,
    sketch: seq<nat>, codes: map<nat, nat>, errorClasses: map<seq<Byte>, nat>, noStatusReasons: map<nat, nat>,
    maxDurationNs: nat, slowest: Option<Exemplar>, errs: seq<Exemplar>)

  function Empty(): (a: Aggregate)
    ensures |a.sketch| == NUM_BUCKETS
  {
    Aggregate(0, 0, 0, 0, 0, Zeros(), map[], map[], map[], 0, None, [])
  }

  function BumpCode(codes: map<nat, nat>, status: int): map<nat, nat> {
    if status > 0 then CappedBump(codes, CodeOf(status), MAX_STATUS_CODES) else codes
  }

  ghost function BumpErrorClass(classes: map<seq<Byte>, nat>, raw: seq<Byte>): map<seq<Byte>, nat> {
    var t := Sanitize(raw);
    if t != [] then CappedBump(classes, t, MAX_ERROR_CLASSES) else classes
  }

  /** No cap here: folding large reasons keeps the key set small by itself. */
  function BumpReason(reasons: map<nat, nat>, reason: nat): map<nat, nat> {
    var k := ReasonOf(reason);
    reasons[k := (if k in reasons then reasons[k] else 0) + 1]
  }

  /** One more record, in everything but the sketch. */
  ghost function StepFields(a: Aggregate, r: Record): (b: Aggregate)
    ensures b.sketch == a.sketch
  {
    var ex := ExemplarOf(r);
    Aggregate(
      a.count + 1,
      a.sumDurationNs + NonNegative(r.durationNs),
      a.reqBytes + NonNegative(r.reqBytes),
      a.respBytes + NonNegative(r.respBytes),
      a.sumDownstreamNs + NonNegative(r.downstreamNs),
      a.sketch,
      BumpCode(a.codes, r.status),
      BumpErrorClass(a.errorClasses, r.errorClass),
      if r.status <= 0 then BumpReason(a.noStatusReasons, r.noStatusReason) else a.noStatusReasons,
      if ex.durationNs > a.maxDurationNs then ex.durationNs else a.maxDurationNs,
      if a.slowest == None || ex.durationNs > a.slowest.value.durationNs then Some(ex) else a.slowest,
      if IsError(r.status) && |a.errs| < MAX_ERROR_EXEMPLARS then a.errs + [ex] else a.errs)
  }

  /** One more record. */
  ghost function Step(a: Aggregate, r: Record): (b: Aggregate)
    requires |a.sketch| == NUM_BUCKETS
    ensures |b.sketch| == NUM_BUCKETS
  {
    StepFields(a.(sketch := SketchBuckets.Bump(a.sketch, Slot(Seconds(r)))), r)
  }

  ghost function Fold(rs: seq<Record>): (a: Aggregate)
    ensures |a.sketch| == NUM_BUCKETS
  {
    if rs == [] then Empty() else Step(Fold(rs[..|rs| - 1]), rs[|rs| - 1])
  }

  lemma {:induction false} FoldSnoc(rs: seq<Record>, r: Record)
    ensures Fold(rs + [r]) == Step(Fold(rs), r)
  {
    assert (rs + [r])[..|rs|] == rs;
  }

  // ---------- what the aggregate of a list of records is ----------

  /** The five counters are the number of records and the sums of their positive fields. */
  lemma {:induction false} FoldSums(rs: seq<Record>)
    ensures
      var a := Fold(rs);
      && a.count == |rs|
      && a.sumDurationNs == SumPositive(rs, Duration)
      && a.reqBytes == SumPositive(rs, ReqBytes)
      && a.respBytes == SumPositive(rs, RespBytes)
      && a.sumDownstreamNs == SumPositive(rs, Downstream)
  {
    if rs != [] {
      FoldSums(rs[..|rs| - 1]);
    }
  }

  /** The sketch is the sketch of all durations, so its mass is the request count. */
  lemma {:induction false} FoldSketch(rs: seq<Record>)
    ensures Fold(rs).sketch == SketchOf(AllSeconds(rs))
    ensures |AllSeconds(rs)| == |rs| == SketchBuckets.Total(Fold(rs).sketch)
  {
    if rs != [] {
      FoldSketch(rs[..|rs| - 1]);
      SketchSnoc(AllSeconds(rs[..|rs| - 1]), Seconds(rs[|rs| - 1]));
    }
    SketchMass(AllSeconds(rs));
  }

  /** The slowest exemplar is that of the first record reaching the exact maximum. */
  lemma {:induction false} FoldSlowest(rs: seq<Record>)
    ensures Fold(rs).slowest == Slowest(rs)
    ensures Fold(rs).maxDurationNs == MaxDuration(rs)
  {
    if rs != [] {
      FoldSlowest(rs[..|rs| - 1]);
    }
  }

  /** The error exemplars are those of the first two errors. */
  lemma {:induction false} FoldErrors(rs: seq<Record>)
    ensures Fold(rs).errs == FirstTwo(Errors(rs))
  {
    if rs != [] {
      FoldErrors(rs[..|rs| - 1]);
    }
  }

  lemma CountsSnoc<K>(ks: seq<K>, k: K, cap: nat)
    ensures CappedCounts(ks + [k], cap) == CappedBump(CappedCounts(ks, cap), k, cap)
    ensures ks + [] == ks
  {
    assert (ks + [k])[..|ks|] == ks;
  }

  /** Codes and labels are capped counters over the codes and labels in order of arrival. */
  lemma {:induction false} FoldCodes(rs: seq<Record>)
    ensures Fold(rs).codes == CappedCounts(Codes(rs), MAX_STATUS_CODES)
  {
    if rs != [] {
      FoldCodes(rs[..|rs| - 1]);
      CountsSnoc(Codes(rs[..|rs| - 1]), CodeOf(rs[|rs| - 1].status), MAX_STATUS_CODES);
    }
  }

  lemma {:induction false} FoldLabels(rs: seq<Record>)
    ensures Fold(rs).errorClasses == CappedCounts(Labels(rs), MAX_ERROR_CLASSES)
  {
    if rs != [] {
      FoldLabels(rs[..|rs| - 1]);
      CountsSnoc(Labels(rs[..|rs| - 1]), Sanitize(rs[|rs| - 1].errorClass), MAX_ERROR_CLASSES);
    }
  }

  /** At most twenty codes and labels are kept: the first distinct ones, with exact counts. */
  lemma {:induction false} FoldRetainsFirst(rs: seq<Record>)
    ensures forall k :: k in Fold(rs).codes <==> k in Retained(Codes(rs), MAX_STATUS_CODES)
    ensures forall k :: k in Fold(rs).codes ==> Fold(rs).codes[k] == Occurrences(Codes(rs), k)
    ensures forall t :: t in Fold(rs).errorClasses <==> t in Retained(Labels(rs), MAX_ERROR_CLASSES)
    ensures forall t :: t in Fold(rs).errorClasses ==> Fold(rs).errorClasses[t] == Occurrences(Labels(rs), t)
    ensures |Fold(rs).codes| <= MAX_STATUS_CODES && |Fold(rs).errorClasses| <= MAX_ERROR_CLASSES
  {
    FoldCodes(rs);
    FoldLabels(rs);
    CountsExact(Codes(rs), MAX_STATUS_CODES);
    CountsExact(Labels(rs), MAX_ERROR_CLASSES);
  }

  lemma {:induction false} ReasonMass(m: map<nat, nat>, reason: nat)
    ensures Sum(BumpReason(m, reason)) == Sum(m) + 1
  {
    var k := ReasonOf(reason);
    if k in m {
      SumUpdate(m, k, m[k] + 1);
    } else {
      SumInsert(m, k, 1);
    }
  }

  /** One more reason, counted. */
  lemma {:induction false} ReasonStep(m: map<nat, nat>, ks: seq<nat>, reason: nat)
    requires forall j :: j in m <==> j in ks
    requires forall j :: j in m ==> m[j] == Occurrences(ks, j)
    ensures
      var k := ReasonOf(reason);
      var n := BumpReason(m, reason);
      (forall j :: j in n <==> j in ks + [k]) && (forall j :: j in n ==> n[j] == Occurrences(ks + [k], j))
  {
    var k := ReasonOf(reason);
    assert (ks + [k])[..|ks|] == ks;
    if k !in ks {
      NoOccurrences(ks, k);
    }
  }

  /** The reason map counts every request without a status, each under its reason. */
  lemma {:induction false} FoldReasons(rs: seq<Record>)
    ensures forall k :: k in Fold(rs).noStatusReasons <==> k in Reasons(rs)
    ensures forall k :: k in Fold(rs).noStatusReasons ==>
              Fold(rs).noStatusReasons[k] == Occurrences(Reasons(rs), k)
  {
    if rs != [] {
      var pre, r := rs[..|rs| - 1], rs[|rs| - 1];
      FoldReasons(pre);
      ReasonStep(Fold(pre).noStatusReasons, Reasons(pre), r.noStatusReason);
      assert Reasons(pre) + [] == Reasons(pre);
    }
  }

  lemma {:induction false} FoldReasonMass(rs: seq<Record>)
    ensures Sum(Fold(rs).noStatusReasons) == |Reasons(rs)|
  {
    if rs != [] {
      var pre, r := rs[..|rs| - 1], rs[|rs| - 1];
      FoldReasonMass(pre);
      ReasonMass(Fold(pre).noStatusReasons, r.noStatusReason);
    }
  }

  lemma {:induction false} ReasonsAreSmall(rs: seq<Record>)
    ensures forall k :: k in Reasons(rs) ==> k <= NO_STATUS_OTHER
  {
    if rs != [] {
      ReasonsAreSmall(rs[..|rs| - 1]);
    }
  }

  /** The reason map needs no cap: it never has more than six keys. */
  lemma {:induction false} FoldReasonsBounded(rs: seq<Record>)
    ensures |Fold(rs).noStatusReasons| <= NO_STATUS_OTHER + 1
  {
    FoldReasons(rs);
    ReasonsAreSmall(rs);
    CardinalityBelow(Fold(rs).noStatusReasons.Keys, NO_STATUS_OTHER + 1);
  }

  lemma {:induction false} CardinalityBelow(s: set<nat>, n: nat)
    requires forall k :: k in s ==> k < n
    ensures |s| <= n
  {
    if n == 0 {
      assert s == {};
    } else {
      CardinalityBelow(s - {n - 1}, n - 1);
    }
  }

  lemma {:induction false} CodesAndReasons(rs: seq<Record>)
    ensures |Codes(rs)| + |Reasons(rs)| == |rs|
  {
    if rs != [] {
      CodesAndReasons(rs[..|rs| - 1]);
    }
  }

  /** The request count splits into the counted codes, the no-status reasons, and the code
      increments that the cap refused. */
  lemma {:induction false} CountSplits(rs: seq<Record>)
    ensures Fold(rs).count == Sum(Fold(rs).codes) + Sum(Fold(rs).noStatusReasons)
                            + Refused(Codes(rs), Retained(Codes(rs), MAX_STATUS_CODES))
  {
    FoldSums(rs);
    FoldCodes(rs);
    FoldReasonMass(rs);
    CountsConserve(Codes(rs), MAX_STATUS_CODES);
    CodesAndReasons(rs);
  }

  // ---------- the series object ----------

  datatype Summary = Summary(
    count: nat, sumDurationNs: nat, reqBytes: nat, respBytes: nat,
    latencySketch: map<int, nat>, statusCodes: map<nat, nat>, maxDurationNs: nat, exemplars: seq<Exemplar>,
    errorClasses: map<seq<Byte>, nat>, noStatusReasons: map<nat, nat>, sumDownstreamNs: nat)

  /** The kept errors other than the slowest request, in order. */
  function OtherErrors(errs: seq<Exemplar>, slowest: Option<Exemplar>): seq<Exemplar> {
    if errs == [] then []
    else
      var e := errs[|errs| - 1];
      OtherErrors(errs[..|errs| - 1], slowest) + if slowest == Some(e) then [] else [e]
  }

  /** The reservoir for the wire: the slowest request first, then the other kept errors. */
  function ExemplarList(slowest: Option<Exemplar>, errs: seq<Exemplar>): seq<Exemplar> {
    (if slowest.Some? then [slowest.value] else []) + OtherErrors(errs, slowest)
  }

  lemma {:induction false} OtherErrorsShape(errs: seq<Exemplar>, slowest: Option<Exemplar>)
    ensures |OtherErrors(errs, slowest)| <= |errs|
    ensures forall e :: e in OtherErrors(errs, slowest) <==> e in errs && slowest != Some(e)
  {
    if errs != [] {
      var n := |errs| - 1;
      OtherErrorsShape(errs[..n], slowest);
      assert errs == errs[..n] + [errs[n]];
    }
  }

  /** The reservoir holds the slowest request and the kept errors, at most three exemplars in all,
      and the slowest once, in front. */
  lemma {:induction false} ReservoirShape(rs: seq<Record>)
    ensures
      var out := ExemplarList(Slowest(rs), FirstTwo(Errors(rs)));
      && out == ExemplarList(Fold(rs).slowest, Fold(rs).errs)
      && |out| <= 1 + MAX_ERROR_EXEMPLARS
      && (rs != [] ==> out != [] && out[0] == ExemplarOf(rs[SlowestIndex(rs)]) && out[0] !in out[1..])
      && (forall e :: e in out <==> Slowest(rs) == Some(e) || e in FirstTwo(Errors(rs)))
  {
    FoldSlowest(rs);
    FoldErrors(rs);
    OtherErrorsShape(FirstTwo(Errors(rs)), Slowest(rs));
  }

  /** The summary shipped for the records rs. */
  ghost function SummaryOf(rs: seq<Record>): Summary {
    var a := Fold(rs);
    Summary(a.count, a.sumDurationNs, a.reqBytes, a.respBytes, ToMap(a.sketch), a.codes, a.maxDurationNs,
            ExemplarList(a.slowest, a.errs), a.errorClasses, a.noStatusReasons, a.sumDownstreamNs)
  }

  /** A summary's sketch is that of its durations, and its mass is its request count. */
  lemma {:induction false} SummaryMass(rs: seq<Record>)
    ensures SummaryOf(rs).latencySketch == ToMap(SketchOf(AllSeconds(rs)))
    ensures SummaryOf(rs).count == |rs| == |AllSeconds(rs)| == Sum(SummaryOf(rs).latencySketch)
  {
    FoldSketch(rs);
    FoldSums(rs);
    DenseMass(SketchOf(AllSeconds(rs)));
  }

  /** The sums of a summary, field by field. */
  lemma {:induction false} SummarySums(rs: seq<Record>)
    ensures
      var s := SummaryOf(rs);
      && s.count == |rs|
      && s.sumDurationNs == SumPositive(rs, Duration) && s.sumDownstreamNs == SumPositive(rs, Downstream)
      && s.reqBytes == SumPositive(rs, ReqBytes) && s.respBytes == SumPositive(rs, RespBytes)
  {
    FoldSums(rs);
  }

  /** The maximum and the exemplars of a summary are those of its records. */
  lemma {:induction false} SummaryExemplars(rs: seq<Record>)
    ensures SummaryOf(rs).maxDurationNs == MaxDuration(rs)
    ensures SummaryOf(rs).exemplars == ExemplarList(Slowest(rs), FirstTwo(Errors(rs)))
  {
    FoldSlowest(rs);
    FoldErrors(rs);
  }

  /** m counts the occurrences in ks of exactly the keys in kept. */
  ghost predicate Counts<K(!new)>(m: map<K, nat>, kept: seq<K>, ks: seq<K>) {
    (forall k :: k in m <==> k in kept) && (forall k :: k in m ==> m[k] == Occurrences(ks, k))
  }

  /** The three breakdowns of a summary count the codes, labels and reasons of its records, under their
      caps. */
  lemma {:induction false} SummaryBreakdowns(rs: seq<Record>)
    ensures Counts(SummaryOf(rs).statusCodes, Retained(Codes(rs), MAX_STATUS_CODES), Codes(rs))
    ensures Counts(SummaryOf(rs).errorClasses, Retained(Labels(rs), MAX_ERROR_CLASSES), Labels(rs))
    ensures Counts(SummaryOf(rs).noStatusReasons, Reasons(rs), Reasons(rs))
  {
    FoldRetainsFirst(rs);
    FoldReasons(rs);
  }

  class Series {
    var count: nat
    var sumDurationNs: nat
    var reqBytes: nat
    var respBytes: nat
    var maxDurationNs: nat
    const sk: DDSketch
    var codes: map<nat, nat>
    var errorClasses: map<seq<Byte>, nat>
    var noStatusReasons: map<nat, nat>
    var sumDownstreamNs: nat
    var slowest: Option<Exemplar>
    var errs: seq<Exemplar>
    ghost var records: seq<Record>  // all records observed so far

    /** The series is the exact fold of the records it has seen. */
    ghost predicate Valid()
      reads this, sk, sk.buckets
    {
      sk.Valid() && Value() == Fold(records)
    }

    ghost function Value(): Aggregate
      reads this, sk, sk.buckets
    {
      Aggregate(count, sumDurationNs, reqBytes, respBytes, sumDownstreamNs, sk.buckets[..],
                codes, errorClasses, noStatusReasons, maxDurationNs, slowest, errs)
    }

    constructor ()
      ensures Valid() && records == [] && fresh(sk) && fresh(sk.buckets)
    {
      sk := new DDSketch();
      count, sumDurationNs, reqBytes, respBytes, maxDurationNs, sumDownstreamNs := 0, 0, 0, 0, 0, 0;
      codes, errorClasses, noStatusReasons := map[], map[], map[];
      slowest, errs, records := None, [], [];
    }

    /** The critical section of Observe on an existing series. */
    method Observe(rec: Record)
      requires Valid()
      modifies this, sk, sk.buckets
      ensures Valid() && records == old(records) + [rec]
    {
      FoldSnoc(records, rec);
      ObserveValue(rec);
      records := records + [rec];
    }

    method ObserveValue(rec: Record)
      requires sk.Valid()
      modifies this, sk, sk.buckets
      ensures sk.Valid() && Value() == Step(old(Value()), rec) && records == old(records)
    {
      sk.Add(Seconds(rec));
      ObserveFields(rec);
    }

    method ObserveFields(rec: Record)
      modifies this
      ensures Value() == StepFields(old(Value()), rec) && records == old(records)
    {
      AddCounters(rec);
      RecordCode(rec.status);
      RecordErrorClass(rec.errorClass);
      if rec.status <= 0 {
        noStatusReasons := BumpReason(noStatusReasons, rec.noStatusReason);
      }
      ObserveExemplar(rec, ExemplarOf(rec));
    }

    method AddCounters(rec: Record)
      modifies this`count, this`sumDurationNs, this`reqBytes, this`respBytes, this`sumDownstreamNs
      ensures count == old(count) + 1
      ensures sumDurationNs == old(sumDurationNs) + NonNegative(rec.durationNs)
      ensures reqBytes == old(reqBytes) + NonNegative(rec.reqBytes)
      ensures respBytes == old(respBytes) + NonNegative(rec.respBytes)
      ensures sumDownstreamNs == old(sumDownstreamNs) + NonNegative(rec.downstreamNs)
    {
      count := count + 1;
      if rec.durationNs > 0 {
        sumDurationNs := sumDurationNs + rec.durationNs;
      }
      if rec.reqBytes > 0 {
        reqBytes := reqBytes + rec.reqBytes;
      }
      if rec.respBytes > 0 {
        respBytes := respBytes + rec.respBytes;
      }
      if rec.downstreamNs > 0 {
        sumDownstreamNs := sumDownstreamNs + rec.downstreamNs;
      }
    }

    method RecordCode(status: int)
      modifies this`codes
      ensures codes == BumpCode(old(codes), status)
    {
      if status <= 0 {
        return;
      }
      var code := CodeOf(status);
      if code !in codes && |codes| >= MAX_STATUS_CODES {
        return;
      }
      codes := codes[code := (if code in codes then codes[code] else 0) + 1];
    }

    method RecordErrorClass(raw: seq<Byte>)
      modifies this`errorClasses
      ensures errorClasses == BumpErrorClass(old(errorClasses), raw)
    {
      var errLabel := SanitizeErrorClass(raw);
      if errLabel == [] {
        return;
      }
      if errLabel !in errorClasses && |errorClasses| >= MAX_ERROR_CLASSES {
        return;
      }
      errorClasses := errorClasses[errLabel := (if errLabel in errorClasses then errorClasses[errLabel] else 0) + 1];
    }

    method ObserveExemplar(rec: Record, ex: Exemplar)
      modifies this`maxDurationNs, this`slowest, this`errs
      ensures maxDurationNs == if ex.durationNs > old(maxDurationNs) then ex.durationNs else old(maxDurationNs)
      ensures slowest == if old(slowest) == None || ex.durationNs > old(slowest).value.durationNs
                         then Some(ex) else old(slowest)
      ensures errs == if IsError(rec.status) && |old(errs)| < MAX_ERROR_EXEMPLARS
                      then old(errs) + [ex] else old(errs)
    {
      if ex.durationNs > maxDurationNs {
        maxDurationNs := ex.durationNs;
      }
      if slowest == None || ex.durationNs > slowest.value.durationNs {
        slowest := Some(ex);
      }
      if IsError(rec.status) && |errs| < MAX_ERROR_EXEMPLARS {
        errs := errs + [ex];
      }
    }

    method Exemplars() returns (out: seq<Exemplar>)
      ensures out == ExemplarList(slowest, errs)
    {
      out := if slowest.Some? then [slowest.value] else [];
      for i := 0 to |errs|
        invariant out == ExemplarList(slowest, errs[..i])
      {
        assert errs[..i + 1][..i] == errs[..i];
        if slowest != Some(errs[i]) {
          out := out + [errs[i]];
        }
      }
      assert errs[..|errs|] == errs;
    }

    /** The summary that a flush ships for this series. */
    method Summarize() returns (s: Summary)
      requires Valid()
      ensures s == SummaryOf(records)
      ensures s.count == |records| == Sum(s.latencySketch)
    {
      var wire := sk.Buckets();
      var kept := Exemplars();
      SummaryMass(records);
      s := Summary(count, sumDurationNs, reqBytes, respBytes, wire, codes, maxDurationNs, kept,
                   errorClasses, noStatusReasons, sumDownstreamNs);
    }
  }
}
