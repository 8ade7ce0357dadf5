/** The commit-reveal log and its audit, for any hash of payload and nonce. */
module Audit {
  /** JSON values as the peers exchange them. */
  datatype Json =
    | Null
    | Bool(b: bool)
    | Num(x: real)
    | Str(s: string)
    | List(items: seq<Json>)
    | Obj(fields: map<string, Json>)
  {
    predicate Truthy() {
      match this
      case Null => false
      case Bool(b) => b
      case Num(x) => x != 0.0
      case Str(s) => s != ""
      case List(items) => items != []
      case Obj(fields) => fields != map[]
    }

    /** A dictionary lookup that falls back to the given value. */
    function Get(key: string, otherwise: Json): Json {
      if Obj? && key in fields then fields[key] else otherwise
    }

    predicate Has(key: string) {
      Obj? && key in fields
    }
  }

  type Payload = map<string, Json>

  /** The digest of a payload sealed with a nonce. */
  type Hash = (Payload, string) -> string

  function Seal(h: Hash, payload: Payload, nonce: string): Json {
    Obj(map["payload" := Obj(payload), "nonce" := Str(nonce), "commit" := Str(h(payload, nonce))])
  }

  /** The revealed payload and nonce hash to the recorded commit. */
  predicate Verifies(h: Hash, record: Json) {
    record.Has("payload") && record.fields["payload"].Obj? &&
    record.Has("nonce") && record.fields["nonce"].Str? &&
    record.Has("commit") && record.fields["commit"] == Str(h(record.fields["payload"].fields, record.fields["nonce"].s))
  }

  /** What the audit demands of one record, given the commit recorded just before it. */
  predicate RecordPasses(h: Hash, record: Json, index: nat, previous: Json) {
    Verifies(h, record) &&
    var payload := record.fields["payload"];
    var prior := payload.Get("prior_commit", Null);
    (index == 0 ==> !prior.Truthy()) &&
    (index > 0 && payload.Has("prior_commit") ==> prior == previous)
  }

  function StepOf(record: Json): Json {
    if record.Has("payload") && record.fields["payload"].Obj?
    then record.fields["payload"].Get("step", Num(-1.0))
    else Num(-1.0)
  }

  /** The commit the next record has to point to. */
  function CommitBefore(records: seq<Json>, index: nat): Json
    requires index <= |records|
  {
    if index == 0 then Null else records[index - 1].Get("commit", Null)
  }

  /** The reported steps of the failing records among the first k, in order. */
  function FailedSteps(h: Hash, records: seq<Json>, k: nat): seq<Json>
    requires k <= |records|
  {
    if k == 0 then []
    else
      FailedSteps(h, records, k - 1) +
      if RecordPasses(h, records[k - 1], k - 1, CommitBefore(records, k - 1)) then [] else [StepOf(records[k - 1])]
  }

  datatype Report = Report(passed: bool, verifiedSteps: int, failedSteps: seq<Json>)

  function AuditReport(h: Hash, records: seq<Json>): Report {
    var failed := FailedSteps(h, records, |records|);
    Report(failed == [], |records| - |failed|, failed)
  }

  method AuditRecords(h: Hash, records: seq<Json>) returns (report: Report)
    ensures report == AuditReport(h, records)
  {
    var failed := [];
    var previousCommit := Null;
    for index := 0 to |records|
      invariant failed == FailedSteps(h, records, index)
      invariant previousCommit == CommitBefore(records, index)
    {
      var record := records[index];
      var step := StepOf(record);
      var ok := false;
      if Verifies(h, record) {
        var payload := record.fields["payload"];
        var prior := payload.Get("prior_commit", Null);
        ok := !(index == 0 && prior.Truthy()) && !(index > 0 && payload.Has("prior_commit") && prior != previousCommit);
      }
      if !ok {
        failed := failed + [step];
      }
      previousCommit := record.Get("commit", Null);
    }
    return Report(failed == [], |records| - |failed|, failed);
  }

  // ----- what a passing audit means -----

  ghost predicate AllPass(h: Hash, records: seq<Json>, k: nat)
    requires k <= |records|
  {
    forall i :: 0 <= i < k ==> RecordPasses(h, records[i], i, CommitBefore(records, i))
  }

  lemma {:induction false} NoFailureIffAllPass(h: Hash, records: seq<Json>, k: nat)
    requires k <= |records|
    ensures FailedSteps(h, records, k) == [] <==> AllPass(h, records, k)
    ensures |FailedSteps(h, records, k)| <= k
  {
    hide RecordPasses, StepOf, CommitBefore;
    if k > 0 {
      NoFailureIffAllPass(h, records, k - 1);
    }
  }

  /** The audit passes, with every step verified, exactly when every record is sealed and correctly chained. */
  lemma AuditPassesIff(h: Hash, records: seq<Json>)
    ensures AuditReport(h, records).passed <==> AllPass(h, records, |records|)
    ensures AuditReport(h, records).passed <==> AuditReport(h, records).verifiedSteps == |records|
  {
    NoFailureIffAllPass(h, records, |records|);
  }

  /**
   * One more record is accepted exactly when its commit is the digest of the payload and nonce it reveals and it
   * continues the chain; otherwise it is reported after the failures before it, by its sealed step, or by -1 when it
   * seals none.
   */
  lemma RecordJudged(h: Hash, records: seq<Json>, record: Json)
    ensures var payload := record.Get("payload", Null);
            var before, after := AuditReport(h, records), AuditReport(h, records + [record]);
            var sealed := Revealed(record) && record.Get("commit", Null) ==
                          Str(h(payload.fields, record.fields["nonce"].s));
            var continues := if records == [] then !payload.Get("prior_commit", Null).Truthy()
                             else payload.Has("prior_commit") ==>
                               payload.fields["prior_commit"] == records[|records| - 1].Get("commit", Null);
            var step := if payload.Has("step") then payload.fields["step"] else Num(-1.0);
            after.failedSteps == (if sealed && continues then before.failedSteps else before.failedSteps + [step]) &&
            (after.passed <==> after.failedSteps == []) &&
            after.verifiedSteps == |records| + 1 - |after.failedSteps|
  {
    var longer := records + [record];
    SameFailures(h, records, longer, |records|);
    SameCommitBefore(records, longer, |records|);
  }

  lemma {:induction false} SameFailures(h: Hash, records: seq<Json>, longer: seq<Json>, k: nat)
    requires k <= |records| <= |longer| && records == longer[..|records|]
    ensures FailedSteps(h, longer, k) == FailedSteps(h, records, k)
  {
    hide RecordPasses, StepOf, CommitBefore;
    if k > 0 {
      SameFailures(h, records, longer, k - 1);
      SameCommitBefore(records, longer, k - 1);
      assert longer[k - 1] == records[k - 1];
    }
  }

  ghost predicate Chained(records: seq<Json>) {
    forall i :: 0 <= i < |records| ==> records[i].Get("payload", Null).Has("prior_commit")
  }

  ghost predicate SameRecord(a: Json, b: Json) {
    a.Has("payload") && b.Has("payload") && a.fields["payload"] == b.fields["payload"] &&
    a.Has("nonce") && b.Has("nonce") && a.fields["nonce"] == b.fields["nonce"] &&
    a.Has("commit") && b.Has("commit") && a.fields["commit"] == b.fields["commit"]
  }

  /** The record holds a dictionary as its payload and a text as its nonce. */
  predicate Revealed(record: Json) {
    record.Has("payload") && record.fields["payload"].Obj? && record.Has("nonce") && record.fields["nonce"].Str?
  }

  /** Two records that reveal different payloads or nonces with one and the same digest. */
  ghost predicate Collide(h: Hash, a: Json, b: Json) {
    Revealed(a) && Revealed(b) &&
    h(a.fields["payload"].fields, a.fields["nonce"].s) == h(b.fields["payload"].fields, b.fields["nonce"].s) &&
    (a.fields["payload"] != b.fields["payload"] || a.fields["nonce"] != b.fields["nonce"])
  }

  /** Some record of one log and some record of the other are a collision of the hash. */
  ghost predicate Clash(h: Hash, a: seq<Json>, b: seq<Json>) {
    exists i, j :: 0 <= i < |a| && 0 <= j < |b| && Collide(h, a[i], b[j])
  }

  /** No commit of the log is the empty text. */
  predicate NonEmptyCommits(records: seq<Json>) {
    forall i :: 0 <= i < |records| ==> records[i].Get("commit", Null).Truthy()
  }

  lemma SameCommitSameRecord(h: Hash, a: Json, b: Json)
    requires !Collide(h, a, b) && Verifies(h, a) && Verifies(h, b)
    requires a.Get("commit", Null) == b.Get("commit", Null)
    ensures SameRecord(a, b) && a.Get("payload", Null) == b.Get("payload", Null)
  {
  }

  /** A first record has no predecessor; a later one points to a non-empty commit. */
  lemma FirstIsRecognisable(h: Hash, records: seq<Json>, i: nat)
    requires NonEmptyCommits(records) && Chained(records) && i < |records| && AllPass(h, records, |records|)
    ensures records[i].Get("payload", Null).Get("prior_commit", Null).Truthy() <==> i > 0
  {
    assert RecordPasses(h, records[i], i, CommitBefore(records, i));
  }

  /** Walking both chains backwards from equal commits. */
  lemma {:induction false} ChainsAgree(h: Hash, a: seq<Json>, b: seq<Json>, i: nat, j: nat)
    requires !Clash(h, a, b) && NonEmptyCommits(a) && NonEmptyCommits(b) && Chained(a) && Chained(b)
    requires AllPass(h, a, |a|) && AllPass(h, b, |b|)
    requires i < |a| && j < |b| && a[i].Get("commit", Null) == b[j].Get("commit", Null)
    ensures i == j && forall k :: 0 <= k <= i ==> SameRecord(a[k], b[k])
    decreases i
  {
    hide NonEmptyCommits, AllPass, Chained, Verifies, SameRecord, Collide;
    LinkBack(h, a, i);
    LinkBack(h, b, j);
    SameCommitSameRecord(h, a[i], b[j]);
    FirstIsRecognisable(h, a, i);
    FirstIsRecognisable(h, b, j);
    if i > 0 {
      ChainsAgree(h, a, b, i - 1, j - 1);
    }
  }

  lemma LinkBack(h: Hash, records: seq<Json>, i: nat)
    requires Chained(records) && i < |records| && AllPass(h, records, |records|)
    ensures Verifies(h, records[i])
    ensures i > 0 ==> records[i].Get("payload", Null).Get("prior_commit", Null) == records[i - 1].Get("commit", Null)
  {
    assert RecordPasses(h, records[i], i, CommitBefore(records, i));
  }

  ghost predicate SameLog(a: seq<Json>, b: seq<Json>) {
    |a| == |b| && forall k :: 0 <= k < |a| ==> SameRecord(a[k], b[k])
  }

  /**
   * Two audited, fully chained logs with the same last commit are the same log - same length, and the same payload,
   * nonce and commit in every record - or they exhibit a collision of the hash.
   */
  lemma LastCommitFixesLog(h: Hash, a: seq<Json>, b: seq<Json>)
    requires NonEmptyCommits(a) && NonEmptyCommits(b) && Chained(a) && Chained(b) && a != [] && b != []
    requires AuditReport(h, a).passed && AuditReport(h, b).passed
    requires a[|a| - 1].Get("commit", Null) == b[|b| - 1].Get("commit", Null)
    ensures SameLog(a, b) || Clash(h, a, b)
  {
    hide NonEmptyCommits, AllPass, Chained, SameRecord, FailedSteps, Clash;
    AuditPassesIff(h, a);
    AuditPassesIff(h, b);
    if !Clash(h, a, b) {
      ChainsAgree(h, a, b, |a| - 1, |b| - 1);
    }
  }

  /** Appending an honestly sealed and chained record keeps a passing audit passing. */
  lemma SealedRecordExtends(h: Hash, records: seq<Json>, payload: Payload, nonce: string)
    requires AuditReport(h, records).passed
    requires "prior_commit" in payload
    requires payload["prior_commit"] == if records == [] then Str("") else CommitBefore(records, |records|)
    ensures AuditReport(h, records + [Seal(h, payload, nonce)]).passed
    ensures AuditReport(h, records + [Seal(h, payload, nonce)]).verifiedSteps == |records| + 1
  {
    hide RecordPasses, Seal, FailedSteps, CommitBefore;
    var record := Seal(h, payload, nonce);
    var longer := records + [record];
    AuditPassesIff(h, records);
    AuditPassesIff(h, longer);
    forall i | 0 <= i < |longer|
      ensures RecordPasses(h, longer[i], i, CommitBefore(longer, i))
    {
      SameCommitBefore(records, longer, i);
      if i < |records| {
        assert RecordPasses(h, records[i], i, CommitBefore(records, i));
      } else {
        SealPasses(h, payload, nonce, i, CommitBefore(longer, i));
      }
    }
  }

  lemma SameCommitBefore(records: seq<Json>, longer: seq<Json>, i: nat)
    requires i <= |records| <= |longer| && records == longer[..|records|]
    ensures CommitBefore(longer, i) == CommitBefore(records, i)
  {
    assert i > 0 ==> longer[i - 1] == records[i - 1];
  }

  lemma SealPasses(h: Hash, payload: Payload, nonce: string, index: nat, previous: Json)
    requires "prior_commit" in payload
    requires payload["prior_commit"] == if index == 0 then Str("") else previous
    ensures RecordPasses(h, Seal(h, payload, nonce), index, previous)
  {
  }
}
