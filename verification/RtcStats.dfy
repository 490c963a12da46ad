/** Delta compression of getStats reports (rtcstats/rtcstats.go) and the baseline
    that call.go carries from tick to tick. */
module RtcStats {
  import opened Wrappers

  /** A scalar of the JSON-decoded report. */
  datatype Value = Num(n: real) | Text(s: string) | Flag(b: bool) | Null

  type Fields = map<string, Value>

  /** A top-level entry: a record of fields, or anything else. */
  datatype Entry = Record(fields: Fields) | Plain(value: Value)

  type Report = map<string, Entry>

  const ID := "id"
  const TIMESTAMP := "timestamp"

  // ---- what compression computes ----

  predicate HasTime(e: Entry) { e.Record? && TIMESTAMP in e.fields && e.fields[TIMESTAMP].Num? }

  predicate HasTimeOf(report: Report, id: string, m: real) {
    id in report && HasTime(report[id]) && report[id].fields[TIMESTAMP].n == m
  }

  /** m is the largest report timestamp, or -1 without any above it. */
  ghost predicate IsLatest(report: Report, m: real) {
    && m >= -1.0
    && (forall id :: id in report && HasTime(report[id]) ==> report[id].fields[TIMESTAMP].n <= m)
    && (m == -1.0 || exists id :: HasTimeOf(report, id, m))
  }

  lemma LatestUnique(report: Report, m: real, k: real)
    requires IsLatest(report, m) && IsLatest(report, k)
    ensures m == k
  {
  }

  /** The record a new record is compared with. */
  function Before(prev: Report, id: string): Option<Fields> {
    if id in prev && prev[id].Record? then Some(prev[id].fields) else None
  }

  /** First pass: no "id", and nothing that has not changed. */
  function Strip(before: Option<Fields>, f: Fields): Fields {
    map k | k in f && k != ID && !(before.Some? && k in before.value && before.value[k] == f[k]) :: f[k]
  }

  /** Second pass: the hoisted timestamp is zeroed. */
  function Zero(f: Fields, m: real): Fields {
    if TIMESTAMP in f && f[TIMESTAMP] == Num(m) then f[TIMESTAMP := Num(0.0)] else f
  }

  function CompressEntry(before: Option<Fields>, e: Entry, m: real): Entry {
    if e.Record? then Record(Zero(Strip(before, e.fields), m)) else e
  }

  /** DeltaCompressionRtcStats, given the largest timestamp. */
  function Compress(prev: Report, report: Report, m: real): Report {
    (map id | id in report :: CompressEntry(Before(prev, id), report[id], m))[TIMESTAMP := Plain(Num(m))]
  }

  // ---- the receiver ----

  /** Undo the compression of one record: start from the previous one, take what
      changed, put the hoisted timestamp and the id back. */
  function ExpandEntry(before: Option<Fields>, id: string, e: Entry, m: real): Entry {
    if e.Record? then
      var merged := if before.Some? then before.value + e.fields else e.fields;
      var hoisted := TIMESTAMP in e.fields && e.fields[TIMESTAMP] == Num(0.0);
      var timed := if hoisted then merged[TIMESTAMP := Num(m)] else merged;
      Record(timed[ID := Text(id)])
    else e
  }

  function Hoisted(c: Report): real {
    if TIMESTAMP in c && c[TIMESTAMP].Plain? && c[TIMESTAMP].value.Num? then c[TIMESTAMP].value.n else -1.0
  }

  /** The full report that a compressed one stands for, given the previous full one. */
  function Expand(prev: Report, c: Report): Report {
    map id | id in c && id != TIMESTAMP :: ExpandEntry(Before(prev, id), id, c[id], Hoisted(c))
  }

  // ---- losslessness ----

  /** Every record names itself, timestamps are not zero, and no record is called
      "timestamp". */
  ghost predicate WellFormed(report: Report) {
    && TIMESTAMP !in report
    && forall id :: id in report && report[id].Record? ==>
         && ID in report[id].fields && report[id].fields[ID] == Text(id)
         && (TIMESTAMP in report[id].fields ==> report[id].fields[TIMESTAMP] != Num(0.0))
  }

  /** Each record keeps the fields it had. */
  ghost predicate KeepsFields(prev: Report, report: Report) {
    forall id :: id in report && report[id].Record? && Before(prev, id).Some? ==>
      Before(prev, id).value.Keys <= report[id].fields.Keys
  }

  lemma EntryRoundTrip(before: Option<Fields>, id: string, e: Entry, m: real)
    requires e.Record? ==>
      && ID in e.fields && e.fields[ID] == Text(id)
      && (TIMESTAMP in e.fields ==> e.fields[TIMESTAMP] != Num(0.0))
    ensures ExpandEntry(before, id, CompressEntry(before, e, m), m) == e
       <==> (e.Record? && before.Some? ==> before.value.Keys <= e.fields.Keys)
  {
    if e.Record? {
      var back := ExpandEntry(before, id, CompressEntry(before, e, m), m).fields;
      var small := Zero(Strip(before, e.fields), m);
      assert back.Keys == small.Keys + (if before.Some? then before.value.Keys else {}) + {ID};
      forall k | k in e.fields ensures k in back && back[k] == e.fields[k] {
      }
      if before.Some? ==> before.value.Keys <= e.fields.Keys {
        assert back.Keys == e.fields.Keys;
        assert back == e.fields;
      }
    }
  }

  /** Nothing that compression keeps can be spared: without any one field the record
      no longer expands to itself. */
  lemma NothingToSpare(before: Option<Fields>, id: string, e: Entry, m: real, k: string)
    requires e.Record? && k in CompressEntry(before, e, m).fields
    ensures ExpandEntry(before, id, Record(CompressEntry(before, e, m).fields - {k}), m) != e
  {
    var less := CompressEntry(before, e, m).fields - {k};
    var back := ExpandEntry(before, id, Record(less), m).fields;
    assert k in back ==> before.Some? && back[k] == before.value[k];
    assert k in e.fields;
  }

  /** A receiver that fills in what is missing from the previous full report recovers the
      new one exactly when every record keeps the fields it had. */
  lemma LosslessIff(prev: Report, report: Report, m: real)
    requires WellFormed(report)
    ensures Expand(prev, Compress(prev, report, m)) == report <==> KeepsFields(prev, report)
  {
    hide CompressEntry, ExpandEntry;
    var c := Compress(prev, report, m);
    var back := Expand(prev, c);
    assert back.Keys == report.Keys;
    forall id | id in report
      ensures back[id] == report[id]
         <==> (report[id].Record? && Before(prev, id).Some? ==> Before(prev, id).value.Keys <= report[id].fields.Keys)
    {
      EntryRoundTrip(Before(prev, id), id, report[id], m);
    }
  }

  // ---- what any receiver could know ----

  /** No other well-formed report compresses to the same thing, so that any receiver who
      has the previous full report could recover this one. */
  ghost predicate Determined(prev: Report, report: Report, m: real) {
    forall other, n :: Rivals(prev, report, m, other, n) ==> other == report
  }

  /** A well-formed report with the same compressed form. */
  ghost predicate Rivals(prev: Report, report: Report, m: real, other: Report, n: real) {
    WellFormed(other) && IsLatest(other, n) && Compress(prev, other, n) == Compress(prev, report, m)
  }

  /** The record had the field and has lost it. */
  predicate Lost(prev: Report, report: Report, id: string, k: string) {
    && id in report && report[id].Record? && Before(prev, id).Some?
    && k in Before(prev, id).value && k !in report[id].fields
  }

  /** The record has the field with the value it had. */
  predicate Unchanged(prev: Report, report: Report, id: string, k: string) {
    && id in report && report[id].Record? && Before(prev, id).Some?
    && k in Before(prev, id).value && k in report[id].fields && k != ID
    && report[id].fields[k] == Before(prev, id).value[k]
  }

  /** A lost field that could as well be there, unchanged: all but a timestamp above the
      hoisted one, which would have been hoisted itself. */
  predicate Restorable(prev: Report, report: Report, m: real, id: string, k: string) {
    && Lost(prev, report, id, k)
    && (k == TIMESTAMP ==>
          var v := Before(prev, id).value[k]; v.Num? ==> v.n <= m && v.n != 0.0)
  }

  /** An unchanged field that could as well be gone: all but the only timestamp equal to
      the hoisted one. */
  ghost predicate Droppable(prev: Report, report: Report, m: real, id: string, k: string) {
    && Unchanged(prev, report, id, k)
    && (k == TIMESTAMP && HasTimeOf(report, id, m) && m != -1.0 ==>
          exists other :: other != id && HasTimeOf(report, other, m))
  }

  /** Putting a lost field back, or leaving an unchanged one out. */
  function Restored(prev: Report, report: Report, id: string, k: string): Report
    requires Lost(prev, report, id, k)
  {
    report[id := Record(report[id].fields[k := Before(prev, id).value[k]])]
  }

  function Dropped(report: Report, id: string, k: string): Report
    requires id in report && report[id].Record?
  {
    report[id := Record(report[id].fields - {k})]
  }

  /** Reports that differ in one record compress alike if the record does. */
  lemma CompressLocal(prev: Report, report: Report, m: real, id: string, e: Entry)
    requires id in report && CompressEntry(Before(prev, id), e, m) == CompressEntry(Before(prev, id), report[id], m)
    ensures Compress(prev, report[id := e], m) == Compress(prev, report, m)
  {
    hide CompressEntry, Before;
  }

  /** A lost field cannot be told from an unchanged one: for every restorable field there
      is another report, with the field, that compresses to the same thing. */
  lemma LostIsInvisible(prev: Report, report: Report, m: real, id: string, k: string)
    requires WellFormed(report) && IsLatest(report, m) && Restorable(prev, report, m, id, k)
    ensures Rivals(prev, report, m, Restored(prev, report, id, k), m) && Restored(prev, report, id, k) != report
  {
    var f, b := report[id].fields, Before(prev, id).value;
    var more := Restored(prev, report, id, k);
    assert Strip(Some(b), f[k := b[k]]) == Strip(Some(b), f);
    CompressLocal(prev, report, m, id, more[id]);
    assert more[id] != report[id] by { assert k in more[id].fields; }
    if m != -1.0 {
      var top :| HasTimeOf(report, top, m);
      assert HasTimeOf(more, top, m);
    }
    LatestKept(report, more, m);
  }

  lemma UnchangedIsInvisible(prev: Report, report: Report, m: real, id: string, k: string)
    requires WellFormed(report) && IsLatest(report, m) && Droppable(prev, report, m, id, k)
    ensures Rivals(prev, report, m, Dropped(report, id, k), m) && Dropped(report, id, k) != report
  {
    var f, b := report[id].fields, Before(prev, id).value;
    var less := Dropped(report, id, k);
    assert Strip(Some(b), f - {k}) == Strip(Some(b), f);
    CompressLocal(prev, report, m, id, less[id]);
    assert less[id] != report[id] by { assert k in report[id].fields; }
    if m != -1.0 {
      var top :| HasTimeOf(report, top, m) && (top == id ==> k != TIMESTAMP);
      assert HasTimeOf(less, top, m);
    }
    LatestKept(report, less, m);
  }

  /** The largest timestamp is the same if every timestamp is in range and, where the
      first report has one of that value, so has the second. */
  lemma LatestKept(report: Report, other: Report, m: real)
    requires IsLatest(report, m)
    requires forall id :: id in other && HasTime(other[id]) ==> other[id].fields[TIMESTAMP].n <= m
    requires m == -1.0 || exists id :: HasTimeOf(other, id, m)
    ensures IsLatest(other, m)
  {
  }

  /** Two records that compress alike agree wherever both have a field, and where only
      one has it, it has the previous value. */
  lemma FieldsAgree(before: Option<Fields>, f: Fields, g: Fields, m: real, k: string)
    requires Zero(Strip(before, f), m) == Zero(Strip(before, g), m) && k != ID && k in f
    requires TIMESTAMP in f ==> f[TIMESTAMP] != Num(0.0)
    requires TIMESTAMP in g ==> g[TIMESTAMP] != Num(0.0)
    ensures if k in g then f[k] == g[k] else before.Some? && k in before.value && before.value[k] == f[k]
  {
    var c, d := Zero(Strip(before, f), m), Zero(Strip(before, g), m);
    assert c == d;
    if k in c {
      assert k in d && c[k] == d[k];
      assert k in g;
    } else {
      assert k !in d;
    }
  }

  /** A rival has the same entries, of the same kinds, and the same hoisted timestamp. */
  lemma RivalShape(prev: Report, report: Report, m: real, other: Report, n: real)
    requires WellFormed(report) && Rivals(prev, report, m, other, n)
    ensures n == m && other.Keys == report.Keys
    ensures forall id :: id in report ==>
      CompressEntry(Before(prev, id), other[id], m) == CompressEntry(Before(prev, id), report[id], m)
  {
    hide CompressEntry, Before;
    var c, d := Compress(prev, other, n), Compress(prev, report, m);
    assert c[TIMESTAMP] == d[TIMESTAMP];
    assert c.Keys == other.Keys + {TIMESTAMP} && d.Keys == report.Keys + {TIMESTAMP};
    forall id ensures id in other <==> id in report {
      assert id in c.Keys <==> id in d.Keys;
    }
    forall id | id in report
      ensures CompressEntry(Before(prev, id), other[id], m) == CompressEntry(Before(prev, id), report[id], m)
    {
      assert c[id] == d[id];
    }
  }

  /** A field in which a rival differs: one that one of them has lost and the other has
      unchanged. */
  lemma RivalDiffers(prev: Report, report: Report, m: real, other: Report, n: real) returns (id: string, k: string)
    requires WellFormed(report) && Rivals(prev, report, m, other, n) && other != report
    ensures id in report && id in other && k != ID
    ensures (Lost(prev, report, id, k) && Unchanged(prev, other, id, k))
         || (Unchanged(prev, report, id, k) && Lost(prev, other, id, k))
  {
    RivalShape(prev, report, m, other, n);
    id :| id in report && other[id] != report[id];
    assert report[id].Record? && other[id].Record?;
    var f, g := report[id].fields, other[id].fields;
    assert f != g;
    if k' :| k' in f && (k' !in g || f[k'] != g[k']) {
      k := k';
      FieldsAgree(Before(prev, id), f, g, m, k);
    } else {
      assert f.Keys != g.Keys;
      k :| k in g && k !in f;
      FieldsAgree(Before(prev, id), g, f, m, k);
    }
  }

  /** The previous full report and the compressed one determine the new one, for a
      receiver who knows nothing else, if and only if no field is ambiguous: every field a
      record had is there with another value, up to timestamps that only one report can
      explain. */
  lemma DeterminedIff(prev: Report, report: Report, m: real)
    requires WellFormed(report) && IsLatest(report, m)
    ensures Determined(prev, report, m) <==>
      forall id, k :: !Restorable(prev, report, m, id, k) && !Droppable(prev, report, m, id, k)
  {
    hide Compress, IsLatest, WellFormed;
    if id, k :| Restorable(prev, report, m, id, k) {
      LostIsInvisible(prev, report, m, id, k);
    } else if id, k :| Droppable(prev, report, m, id, k) {
      UnchangedIsInvisible(prev, report, m, id, k);
    } else {
      forall other, n | Rivals(prev, report, m, other, n) ensures other == report {
        if other != report {
          RivalIsAmbiguous(prev, report, m, other, n);
        }
      }
    }
  }

  lemma RivalIsAmbiguous(prev: Report, report: Report, m: real, other: Report, n: real)
    requires WellFormed(report) && IsLatest(report, m) && Rivals(prev, report, m, other, n) && other != report
    ensures exists id, k :: Restorable(prev, report, m, id, k) || Droppable(prev, report, m, id, k)
  {
    hide Compress;
    RivalShape(prev, report, m, other, n);
    var id, k := RivalDiffers(prev, report, m, other, n);
    if Lost(prev, report, id, k) {
      assert Restorable(prev, report, m, id, k);
    } else if k == TIMESTAMP && HasTimeOf(report, id, m) && m != -1.0 {
      // The rival's own record of the largest timestamp is another one.
      var top :| HasTimeOf(other, top, m);
      assert top != id;
      if HasTimeOf(report, top, m) {
        assert Droppable(prev, report, m, id, k);
      } else {
        TopIsRestored(prev, report, m, other, n, top);
        assert Restorable(prev, report, m, top, TIMESTAMP);
      }
    } else {
      assert Droppable(prev, report, m, id, k);
    }
  }

  lemma TopIsRestored(prev: Report, report: Report, m: real, other: Report, n: real, top: string)
    requires WellFormed(report) && Rivals(prev, report, m, other, n) && HasTimeOf(other, top, m)
    requires !HasTimeOf(report, top, m)
    ensures Lost(prev, report, top, TIMESTAMP) && Before(prev, top).value[TIMESTAMP] == Num(m) && m != 0.0
  {
    RivalShape(prev, report, m, other, n);
    assert report[top].Record?;
    FieldsAgree(Before(prev, top), other[top].fields, report[top].fields, m, TIMESTAMP);
  }

  /** For a receiver who knows that records keep their fields. */
  ghost predicate DeterminedByKeeping(prev: Report, report: Report, m: real) {
    forall other, n :: Rivals(prev, report, m, other, n) && KeepsFields(prev, other) ==> other == report
  }

  /** A timestamp above the hoisted one was lost: no report that keeps its fields can have
      this compressed form. */
  predicate LostNewer(prev: Report, report: Report, m: real, id: string) {
    && Lost(prev, report, id, TIMESTAMP)
    && Before(prev, id).value[TIMESTAMP].Num? && Before(prev, id).value[TIMESTAMP].n > m
  }

  /** Every lost field put back. */
  function Refilled(prev: Report, report: Report): Report {
    map id | id in report ::
      if report[id].Record? && Before(prev, id).Some? then Record(Before(prev, id).value + report[id].fields)
      else report[id]
  }

  lemma RefilledStrip(before: Option<Fields>, f: Fields)
    requires before.Some?
    ensures Strip(before, before.value + f) == Strip(before, f)
  {
  }

  lemma RefilledCompress(prev: Report, report: Report, m: real)
    ensures Compress(prev, Refilled(prev, report), m) == Compress(prev, report, m)
  {
    hide Zero, Strip, Before;
    forall id | id in report && report[id].Record? && Before(prev, id).Some?
      ensures Strip(Before(prev, id), Before(prev, id).value + report[id].fields)
           == Strip(Before(prev, id), report[id].fields)
    {
      RefilledStrip(Before(prev, id), report[id].fields);
    }
  }

  lemma RefilledLatest(prev: Report, report: Report, m: real)
    requires IsLatest(report, m) && forall id :: !LostNewer(prev, report, m, id)
    ensures IsLatest(Refilled(prev, report), m)
  {
    var more := Refilled(prev, report);
    if m != -1.0 {
      var top :| HasTimeOf(report, top, m);
      assert HasTimeOf(more, top, m);
    }
    forall id | id in more && HasTime(more[id]) ensures more[id].fields[TIMESTAMP].n <= m {
      assert !LostNewer(prev, report, m, id);
    }
    LatestKept(report, more, m);
  }

  lemma RefilledRivals(prev: Report, report: Report, m: real)
    requires WellFormed(prev) && WellFormed(report) && IsLatest(report, m)
    requires forall id :: !LostNewer(prev, report, m, id)
    ensures Rivals(prev, report, m, Refilled(prev, report), m) && KeepsFields(prev, Refilled(prev, report))
  {
    hide Compress, IsLatest;
    RefilledCompress(prev, report, m);
    RefilledLatest(prev, report, m);
  }

  /** For a receiver who knows that records keep their fields, the report is determined
      if and only if it keeps its own, or has lost a timestamp so new that no report
      explains it. */
  lemma DeterminedByKeepingIff(prev: Report, report: Report, m: real)
    requires WellFormed(prev) && WellFormed(report) && IsLatest(report, m)
    ensures DeterminedByKeeping(prev, report, m) <==>
      KeepsFields(prev, report) || exists id :: LostNewer(prev, report, m, id)
  {
    hide Compress, IsLatest, WellFormed, KeepsFields;
    if KeepsFields(prev, report) {
      forall other, n | Rivals(prev, report, m, other, n) && KeepsFields(prev, other) ensures other == report {
        LosslessIff(prev, report, m);
        LosslessIff(prev, other, n);
      }
    } else if id :| LostNewer(prev, report, m, id) {
      forall other, n | Rivals(prev, report, m, other, n) ensures !KeepsFields(prev, other) {
        NewerExcludes(prev, report, m, other, n, id);
      }
    } else {
      RefilledRivals(prev, report, m);
      assert Refilled(prev, report) != report;
    }
  }

  lemma NewerExcludes(prev: Report, report: Report, m: real, other: Report, n: real, id: string)
    requires WellFormed(report) && Rivals(prev, report, m, other, n) && LostNewer(prev, report, m, id)
    ensures !KeepsFields(prev, other)
  {
    RivalShape(prev, report, m, other, n);
    if KeepsFields(prev, other) {
      assert other[id].Record?;
      FieldsAgree(Before(prev, id), other[id].fields, report[id].fields, m, TIMESTAMP);
      assert HasTime(other[id]);
    }
  }

  // ---- whole runs ----

  /** The sender's baseline after some ticks: the last full report. */
  function Baseline(reports: seq<Report>): Report {
    if reports == [] then map[] else reports[|reports| - 1]
  }

  /** The compressed reports a sender emits for the full ones. */
  ghost predicate Emits(reports: seq<Report>, sent: seq<Report>) {
    && |sent| == |reports|
    && forall i :: 0 <= i < |sent| ==>
         && IsLatest(reports[i], Hoisted(sent[i]))
         && sent[i] == Compress(Baseline(reports[..i]), reports[i], Hoisted(sent[i]))
  }

  /** What a receiver has after replaying every compressed report. */
  function Received(sent: seq<Report>): Report {
    if sent == [] then map[] else Expand(Received(sent[..|sent| - 1]), sent[|sent| - 1])
  }

  /** From tick to tick, each record keeps the fields it had. */
  ghost predicate Steady(reports: seq<Report>) {
    forall i :: 0 <= i < |reports| ==> KeepsFields(Baseline(reports[..i]), reports[i])
  }

  /** The receiver equals the sender's baseline after every tick. */
  ghost predicate InStep(reports: seq<Report>, sent: seq<Report>) {
    |sent| == |reports| && forall i :: 0 <= i <= |sent| ==> Received(sent[..i]) == Baseline(reports[..i])
  }

  lemma ReceivedStep(reports: seq<Report>, sent: seq<Report>, i: nat)
    requires Emits(reports, sent) && i < |sent| && WellFormed(reports[i])
    requires Received(sent[..i]) == Baseline(reports[..i])
    ensures Received(sent[..i + 1]) == Baseline(reports[..i + 1]) <==> KeepsFields(Baseline(reports[..i]), reports[i])
  {
    hide Expand, Compress, WellFormed, KeepsFields, IsLatest;
    assert sent[..i + 1][..i] == sent[..i];
    LosslessIff(Baseline(reports[..i]), reports[i], Hoisted(sent[i]));
  }

  lemma {:induction false} ReceivedUpTo(reports: seq<Report>, sent: seq<Report>, i: nat)
    requires Emits(reports, sent) && i <= |sent| && Steady(reports)
    requires forall j :: 0 <= j < |reports| ==> WellFormed(reports[j])
    ensures Received(sent[..i]) == Baseline(reports[..i])
  {
    if i > 0 {
      ReceivedUpTo(reports, sent, i - 1);
      ReceivedStep(reports, sent, i - 1);
    }
  }

  /** A receiver that replays every tick stays equal to the sender's baseline over a
      whole run exactly when no record ever loses a field. */
  lemma ReplayTracksBaselineIff(reports: seq<Report>, sent: seq<Report>)
    requires Emits(reports, sent)
    requires forall j :: 0 <= j < |reports| ==> WellFormed(reports[j])
    ensures InStep(reports, sent) <==> Steady(reports)
  {
    if Steady(reports) {
      forall i | 0 <= i <= |sent| ensures Received(sent[..i]) == Baseline(reports[..i]) {
        ReceivedUpTo(reports, sent, i);
      }
    }
    if InStep(reports, sent) {
      hide Expand, Compress, WellFormed, KeepsFields, IsLatest, Received, Baseline;
      forall i | 0 <= i < |reports| ensures KeepsFields(Baseline(reports[..i]), reports[i]) {
        assert Received(sent[..i]) == Baseline(reports[..i]);
        assert Received(sent[..i + 1]) == Baseline(reports[..i + 1]);
        ReceivedStep(reports, sent, i);
      }
    }
  }

  // ---- the maps compression works on in place ----

  /** A record: a map[string]any that is edited in place. */
  class Rec {
    var fields: Fields

    constructor (f: Fields)
      ensures fields == f
    {
      fields := f;
    }
  }

  datatype Cell = Ref(rec: Rec) | Leaf(value: Value)

  ghost function Recs(t: map<string, Cell>): set<Rec> { set id | id in t && t[id].Ref? :: t[id].rec }

  /** No two keys share a record. */
  ghost predicate Unshared(t: map<string, Cell>) {
    forall a, b :: a in t && b in t && a != b && t[a].Ref? && t[b].Ref? ==> t[a].rec != t[b].rec
  }

  function EntryOf(c: Cell): Entry
    reads if c.Ref? then {c.rec} else {}
  {
    if c.Ref? then Record(c.rec.fields) else Plain(c.value)
  }

  function Contents(t: map<string, Cell>): Report
    reads Recs(t)
  {
    map id | id in t :: EntryOf(t[id])
  }

  /** A report as a mutable map of mutable records. */
  class Stats {
    var entries: map<string, Cell>

    constructor ()
      ensures entries == map[]
    {
      entries := map[];
    }

    function View(): Report
      reads this, Recs(entries)
    {
      Contents(entries)
    }
  }

  function ViewOf(s: Stats?): Report
    reads s, if s == null then {} else Recs(s.entries)
  {
    if s == null then map[] else s.View()
  }

  // ---- the loops ----

  /** A record whose names outside `todo` have been compared with the old ones. */
  function Partly(before: Fields, f: Fields, todo: set<string>): Fields {
    map k | k in f && k != ID && (k in todo || !(k in before && before[k] == f[k])) :: f[k]
  }

  lemma PartlyStep(before: Fields, f: Fields, todo: set<string>, name: string)
    requires name in todo && name in Partly(before, f, todo)
    ensures var now := Partly(before, f, todo);
      Partly(before, f, todo - {name}) == if name in before && now[name] == before[name] then now - {name} else now
  {
  }

  lemma PartlyEnds(before: Fields, f: Fields)
    ensures Partly(before, f, (f - {ID}).Keys) == f - {ID}
    ensures Partly(before, f, {}) == Strip(Some(before), f)
    ensures Strip(None, f) == f - {ID}
  {
  }

  /** One record of the first pass, with its inner loop over the field names. */
  method StripRecord(rec: Rec, before: Rec?)
    requires rec != before
    modifies rec
    ensures rec.fields == Strip(if before == null then None else Some(before.fields), old(rec.fields))
  {
    hide Partly, Strip;
    ghost var f := rec.fields;
    rec.fields := rec.fields - {ID};
    PartlyEnds(map[], f);
    if before != null {
      ghost var b := before.fields;
      PartlyEnds(b, f);
      var names := rec.fields.Keys;
      while names != {}
        invariant names <= rec.fields.Keys && before.fields == b
        invariant rec.fields == Partly(b, f, names)
        decreases |names|
      {
        var name :| name in names;
        PartlyStep(b, f, names, name);
        if name in before.fields && rec.fields[name] == before.fields[name] {
          rec.fields := rec.fields - {name};
        }
        names := names - {name};
      }
    }
  }

  /** latest is the largest timestamp of the entries outside `todo`. */
  ghost predicate IsLatestSoFar(report: Report, todo: set<string>, m: real) {
    IsLatest(map id | id in report && id !in todo :: report[id], m)
  }

  lemma LatestStep(report: Report, todo: set<string>, id: string, m: real)
    requires id in todo && id in report && IsLatestSoFar(report, todo, m)
    ensures IsLatestSoFar(report, todo - {id}, Later(report[id], m))
  {
    var seen := map x | x in report && x !in todo :: report[x];
    var more := map x | x in report && x !in todo - {id} :: report[x];
    assert forall x :: x in more <==> x in seen || x == id;
    assert forall x :: x in seen ==> more[x] == seen[x];
    assert more[id] == report[id];
    var n := Later(report[id], m);
    if n != m {
      assert HasTimeOf(more, id, n);
    } else if m != -1.0 {
      var top :| HasTimeOf(seen, top, m);
      assert HasTimeOf(more, top, m);
    }
  }

  lemma LatestEnds(report: Report)
    ensures IsLatestSoFar(report, report.Keys, -1.0)
    ensures forall m :: IsLatestSoFar(report, {}, m) ==> IsLatest(report, m)
  {
    var nothing: set<string> := {};
    var all := map id | id in report && id !in nothing :: report[id];
    assert all == report;
    forall m | IsLatestSoFar(report, nothing, m) ensures IsLatest(report, m) {
      assert IsLatest(all, m);
    }
  }

  /** The entry of a new report after the first pass. */
  function StripEntry(prev: Report, id: string, e: Entry): Entry {
    if e.Record? then Record(Strip(Before(prev, id), e.fields)) else e
  }

  function StripAll(prev: Report, report: Report): Report {
    map id | id in report :: StripEntry(prev, id, report[id])
  }

  function Later(e: Entry, m: real): real {
    if HasTime(e) && e.fields[TIMESTAMP].n > m then e.fields[TIMESTAMP].n else m
  }

  /** One turn of the first loop. */
  method StripOne(prev: Stats?, report: Stats, id: string, latest: real) returns (m: real)
    requires Unshared(report.entries) && id in report.entries
    requires prev != null ==> Recs(prev.entries) !! Recs(report.entries)
    modifies Recs(report.entries)
    ensures ViewOf(prev) == old(ViewOf(prev))
    ensures m == Later(old(report.View())[id], latest)
    ensures report.View() == old(report.View())[id := StripEntry(ViewOf(prev), id, old(report.View())[id])]
  {
    hide Strip;
    m := latest;
    var val := report.entries[id];
    if val.Ref? {
      var rec := val.rec;
      if TIMESTAMP in rec.fields && rec.fields[TIMESTAMP].Num? && rec.fields[TIMESTAMP].n > latest {
        m := rec.fields[TIMESTAMP].n;
      }
      var before: Rec? := null;
      if prev != null && id in prev.entries && prev.entries[id].Ref? {
        before := prev.entries[id].rec;
        assert before in Recs(prev.entries);
      }
      assert rec in Recs(report.entries);
      StripRecord(rec, before);
    }
  }

  /** A report whose entries outside `todo` have been through the first pass. */
  function Half(prev: Report, report: Report, todo: set<string>): Report {
    map id | id in report :: if id in todo then report[id] else StripEntry(prev, id, report[id])
  }

  lemma HalfStep(prev: Report, report: Report, todo: set<string>, id: string)
    requires id in todo && id in report
    ensures id in Half(prev, report, todo) && Half(prev, report, todo)[id] == report[id]
    ensures Half(prev, report, todo)[id := StripEntry(prev, id, report[id])] == Half(prev, report, todo - {id})
  {
  }

  lemma HalfEnds(prev: Report, report: Report)
    ensures Half(prev, report, report.Keys) == report
    ensures Half(prev, report, {}) == StripAll(prev, report)
  {
  }

  /** The first loop: drop ids and unchanged fields, find the largest timestamp. */
  method FirstPass(prev: Stats?, report: Stats) returns (latest: real)
    requires Unshared(report.entries)
    requires prev != null ==> Recs(prev.entries) !! Recs(report.entries)
    modifies Recs(report.entries)
    ensures IsLatest(old(report.View()), latest)
    ensures report.View() == StripAll(old(ViewOf(prev)), old(report.View()))
  {
    ghost var was := report.View();
    ghost var base := ViewOf(prev);
    latest := -1.0;
    var ids := report.entries.Keys;
    assert ids == was.Keys;
    hide IsLatest, IsLatestSoFar, Half, StripAll, StripEntry, Contents, Unshared, Recs;
    LatestEnds(was);
    HalfEnds(base, was);
    while ids != {}
      invariant ids <= was.Keys && was.Keys == report.entries.Keys
      invariant IsLatestSoFar(was, ids, latest)
      invariant ViewOf(prev) == base
      invariant report.View() == Half(base, was, ids)
      decreases |ids|
    {
      var id :| id in ids;
      LatestStep(was, ids, id, latest);
      HalfStep(base, was, ids, id);
      latest := StripOne(prev, report, id, latest);
      ids := ids - {id};
    }
  }

  function ZeroEntry(e: Entry, m: real): Entry {
    if e.Record? then Record(Zero(e.fields, m)) else e
  }

  function ZeroAll(report: Report, m: real): Report {
    map id | id in report :: ZeroEntry(report[id], m)
  }

  /** The second loop: zero every copy of the largest timestamp. */
  method SecondPass(report: Stats, latest: real)
    requires Unshared(report.entries)
    modifies Recs(report.entries)
    ensures report.View() == ZeroAll(old(report.View()), latest)
  {
    ghost var was := report.View();
    var ids := report.entries.Keys;
    while ids != {}
      invariant ids <= report.entries.Keys
      invariant forall id :: id in report.entries ==>
                  EntryOf(report.entries[id]) == if id in ids then was[id] else ZeroEntry(was[id], latest)
      decreases |ids|
    {
      var id :| id in ids;
      var val := report.entries[id];
      if val.Ref? && TIMESTAMP in val.rec.fields && val.rec.fields[TIMESTAMP] == Num(latest) {
        val.rec.fields := val.rec.fields[TIMESTAMP := Num(0.0)];
      }
      ids := ids - {id};
    }
  }

  lemma TwoPasses(base: Report, was: Report, m: real)
    ensures ZeroAll(StripAll(base, was), m)[TIMESTAMP := Plain(Num(m))] == Compress(base, was, m)
  {
    hide Strip, Zero, Before;
  }

  lemma ContentsPut(t: map<string, Cell>, id: string, v: Value)
    ensures Contents(t[id := Leaf(v)]) == Contents(t)[id := Plain(v)]
  {
  }

  /** DeltaCompressionRtcStats: the report becomes its compressed form in place, and
      the old one is not touched (its records are outside the frame). */
  method DeltaCompress(prev: Stats?, report: Stats?)
    requires report != null ==> Unshared(report.entries)
    requires report != null && prev != null ==> prev != report && Recs(prev.entries) !! Recs(report.entries)
    modifies report, if report == null then {} else Recs(report.entries)
    ensures report != null ==> IsLatest(old(report.View()), Hoisted(report.View()))
    ensures report != null ==>
              report.View() == Compress(old(ViewOf(prev)), old(report.View()), Hoisted(report.View()))
  {
    if report == null { return; }
    hide IsLatest, Compress, StripAll, ZeroAll, Contents, Unshared, Hoisted;
    ghost var base, was := ViewOf(prev), report.View();
    var latest := FirstPass(prev, report);
    SecondPass(report, latest);
    TwoPasses(base, was, latest);
    Hoist(report, latest);
  }

  /** The last assignment. */
  method Hoist(report: Stats, latest: real)
    modifies report`entries
    ensures report.View() == old(report.View())[TIMESTAMP := Plain(Num(latest))] && Hoisted(report.View()) == latest
  {
    ghost var t, was := report.entries, report.View();
    report.entries := report.entries[TIMESTAMP := Leaf(Num(latest))];
    assert Contents(t) == was;
    ContentsPut(t, TIMESTAMP, Num(latest));
  }

  // ---- decoding and the carried baseline ----

  /** json.Unmarshal: a fresh map of fresh records. */
  method Unmarshal(json: Report) returns (report: Stats)
    ensures fresh(report) && fresh(Recs(report.entries)) && Unshared(report.entries)
    ensures report.View() == json
  {
    report := new Stats();
    var ids := json.Keys;
    while ids != {}
      invariant ids <= json.Keys && report.entries.Keys == json.Keys - ids
      invariant forall id :: id in report.entries && report.entries[id].Ref? ==> fresh(report.entries[id].rec)
      invariant Unshared(report.entries)
      invariant forall id :: id in report.entries ==> EntryOf(report.entries[id]) == json[id]
      decreases |ids|
    {
      var id :| id in ids;
      var cell;
      if json[id].Record? {
        var rec := new Rec(json[id].fields);
        cell := Ref(rec);
      } else {
        cell := Leaf(json[id].value);
      }
      report.entries := report.entries[id := cell];
      ids := ids - {id};
    }
  }

  /** The copy of the top two levels that decodeRtcStats keeps as the baseline. */
  method Snapshot(report: Stats) returns (snapshot: Stats)
    ensures fresh(snapshot) && fresh(Recs(snapshot.entries))
    ensures snapshot.View() == report.View()
  {
    snapshot := new Stats();
    var ids := report.entries.Keys;
    while ids != {}
      invariant ids <= report.entries.Keys && snapshot.entries.Keys == report.entries.Keys - ids
      invariant forall id :: id in snapshot.entries && snapshot.entries[id].Ref? ==> fresh(snapshot.entries[id].rec)
      invariant forall id :: id in snapshot.entries ==> EntryOf(snapshot.entries[id]) == EntryOf(report.entries[id])
      decreases |ids|
    {
      var id :| id in ids;
      var val := report.entries[id];
      if val.Ref? {
        var clone := new Rec(val.rec.fields);
        val := Ref(clone);
      }
      snapshot.entries := snapshot.entries[id := val];
      ids := ids - {id};
    }
  }

  /** decodeRtcStats: the report to compress, and the copy to keep. */
  method Decode(json: Report) returns (report: Stats, snapshot: Stats)
    ensures fresh(report) && fresh(Recs(report.entries)) && Unshared(report.entries)
    ensures fresh(snapshot) && fresh(Recs(snapshot.entries))
    ensures report != snapshot && Recs(report.entries) !! Recs(snapshot.entries)
    ensures report.View() == json && snapshot.View() == json
  {
    hide Contents, Unshared;
    report := Unmarshal(json);
    snapshot := Snapshot(report);
  }

  /** The part of Call that reports one peer's stats. */
  class Reporter {
    var baseline: Stats?

    constructor ()
      ensures baseline == null
    {
      baseline := null;
    }

    /** Compress against the previous tick, then keep this one as the next baseline. */
    method Replace(report: Stats, snapshot: Stats) returns (emitted: Report)
      requires Unshared(report.entries)
      requires baseline != null ==> baseline != report && Recs(baseline.entries) !! Recs(report.entries)
      requires snapshot != report && Recs(snapshot.entries) !! Recs(report.entries)
      requires snapshot.View() == report.View()
      modifies this, report, Recs(report.entries)
      ensures baseline == snapshot && snapshot.entries == old(snapshot.entries)
      ensures snapshot.View() == old(report.View())
      ensures IsLatest(snapshot.View(), Hoisted(emitted))
      ensures emitted == Compress(old(ViewOf(baseline)), snapshot.View(), Hoisted(emitted))
    {
      hide Compress, IsLatest, Hoisted, Unshared, Contents;
      DeltaCompress(baseline, report);
      emitted := report.View();
      baseline := snapshot;
    }

    method Encode(stats: Report) returns (emitted: Report)
      modifies this
      ensures baseline != null && fresh(baseline) && fresh(Recs(baseline.entries))
      ensures ViewOf(baseline) == stats
      ensures IsLatest(stats, Hoisted(emitted))
      ensures emitted == Compress(old(ViewOf(baseline)), stats, Hoisted(emitted))
    {
      hide Compress, IsLatest, Hoisted, Contents, Unshared;
      var report, snapshot := Decode(stats);
      emitted := Replace(report, snapshot);
    }

    /** One tick; encoding the collected stats may fail. */
    method Tick(stats: Option<Report>) returns (emitted: Option<Report>)
      modifies this
      ensures stats.None? ==> emitted.None? && baseline == old(baseline)
      ensures stats.Some? ==> baseline != null && fresh(baseline) && fresh(Recs(baseline.entries))
      ensures stats.Some? ==> ViewOf(baseline) == stats.value
      ensures stats.Some? ==>
                && emitted.Some?
                && IsLatest(stats.value, Hoisted(emitted.value))
                && emitted.value == Compress(old(ViewOf(baseline)), stats.value, Hoisted(emitted.value))
    {
      hide *;
      if stats.None? { return None; }
      var c := Encode(stats.value);
      emitted := Some(c);
    }
  }

  lemma EmitsNothing(reports: seq<Report>)
    ensures Emits(reports[..0], [])
  {
  }

  lemma EmitsStep(reports: seq<Report>, sent: seq<Report>, c: Report, i: nat)
    requires i < |reports| && Emits(reports[..i], sent) && IsLatest(reports[i], Hoisted(c))
    requires c == Compress(Baseline(reports[..i]), reports[i], Hoisted(c))
    ensures Emits(reports[..i + 1], sent + [c]) && Baseline(reports[..i + 1]) == reports[i]
  {
    hide Compress, IsLatest, Hoisted;
    assert forall j :: 0 <= j <= i ==> reports[..i + 1][..j] == reports[..j];
    assert forall j :: 0 <= j < i ==> reports[..i][..j] == reports[..j];
  }

  /** Every tick of a peer's life, with the reports as they go out. */
  method Session(reports: seq<Report>) returns (sent: seq<Report>)
    ensures Emits(reports, sent)
  {
    hide Compress, IsLatest, Hoisted, Emits;
    assert Emits(reports[..0], []) by { EmitsNothing(reports); }
    var reporter := new Reporter();
    sent := [];
    for i := 0 to |reports|
      invariant fresh(reporter)
      invariant reporter.baseline != null ==> fresh(reporter.baseline) && fresh(Recs(reporter.baseline.entries))
      invariant ViewOf(reporter.baseline) == Baseline(reports[..i])
      invariant Emits(reports[..i], sent)
    {
      var emitted := reporter.Tick(Some(reports[i]));
      EmitsStep(reports, sent, emitted.value, i);
      sent := sent + [emitted.value];
    }
    assert reports[..|reports|] == reports;
  }
}
