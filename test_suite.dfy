/**
 * The base test suite: how an outcome value is classified, how `report`
 * turns a requirement identifier into a record for the reporting sink,
 * and how `run` invokes a suite's checks in declaration order.
 */
module Suites {
  import opened Js

  /** One entry of the injected requirement catalogue (`labelText` is the
      JSON member `label`, a reserved word in Dafny). */
  datatype Requirement = Requirement(
    labelText: string,
    requirementLevel: string,
    comment: string,
    requirementReference: string)

  /** The catalogue: requirement identifier to entry. */
  type Catalogue = map<string, Requirement>

  datatype Status = Pass | Fail | Skip

  /** The record posted to the reporting sink. `M` is the type of a
      suite's messages: each suite keeps its messages as a datatype whose
      `Text` is the string the source passes, and `report` hands the
      message on unchanged. */
  datatype CheckResult<M> = CheckResult(
    labelText: string,
    level: string,
    status: Status,
    description: string,
    message: M,
    uri: string)

  /** The arguments one check method passes to `report`. A deferred check
      reports from inside a promise callback, where a thrown error rejects
      that promise instead of escaping from `run`. */
  datatype Invocation<M> = Invocation(id: string, status: JsValue, message: M, deferred: bool)

  /** `TestSuite.statusClass`: `true` is a pass, `false` a fail and every
      other value (`undefined`, `null`, numbers, strings, objects) a skip. */
  function StatusClass(v: JsValue): (s: Status)
    ensures s == Pass <==> v == Boolean(true)
    ensures s == Fail <==> v == Boolean(false)
    ensures s == Skip <==> !v.Boolean?
  {
    match v
    case Boolean(b) => if b then Pass else Fail
    case _ => Skip
  }

  /** The text `report` throws for an identifier missing from the catalogue. */
  function InvalidIdentifier(id: string): string {
    "Invalid identifier: [" + id + "]"
  }

  /** What `report(id, status, message)` delivers, or the error it throws. */
  function MakeReport<M>(spec: Catalogue, id: string, status: JsValue, message: M)
    : (r: Result<CheckResult<M>, string>)
    ensures r.Err? <==> id !in spec
    ensures r.Err? ==> r.error == InvalidIdentifier(id)
    ensures r.Ok? ==>
      && r.value.labelText == spec[id].labelText
      && r.value.level == spec[id].requirementLevel
      && r.value.description == spec[id].comment
      && r.value.uri == spec[id].requirementReference
      && r.value.message == message
      && (r.value.status == Pass <==> status == Boolean(true))
      && (r.value.status == Fail <==> status == Boolean(false))
  {
    if id in spec then
      var item := spec[id];
      Ok(CheckResult(item.labelText, item.requirementLevel, StatusClass(status),
                     item.comment, message, item.requirementReference))
    else
      Err(InvalidIdentifier(id))
  }

  /** The checks among `calls` that report at once, in order. */
  function Immediate<M>(calls: seq<Invocation<M>>): (im: seq<Invocation<M>>)
    ensures |im| <= |calls|
  {
    if calls == [] then []
    else (if calls[0].deferred then [] else [calls[0]]) + Immediate(calls[1..])
  }

  /** The checks among `calls` that report from a promise callback, in order. */
  function Deferred<M>(calls: seq<Invocation<M>>): (de: seq<Invocation<M>>)
    ensures |de| <= |calls|
  {
    if calls == [] then []
    else (if calls[0].deferred then [calls[0]] else []) + Deferred(calls[1..])
  }

  /** What a run leaves behind: the records delivered while it ran, the
      deferred checks it started, whose callbacks are still to come, and
      the error it ends with, if any. */
  datatype RunResult<M> = RunResult(reports: seq<CheckResult<M>>, pending: seq<Invocation<M>>,
                                 thrown: Option<string>)

  /** `run` over the invocations of a suite's checks, taken in declaration
      order. An immediate check reports at once, and an unknown identifier
      there throws out of `run`, so the later checks never start. A
      deferred check only starts its asynchronous work; it reports after
      `run` has returned. */
  function RunAll<M>(spec: Catalogue, calls: seq<Invocation<M>>): RunResult<M>
    decreases |calls|
  {
    if calls == [] then RunResult([], [], None)
    else
      var rest := RunAll(spec, calls[1..]);
      if calls[0].deferred then RunResult(rest.reports, [calls[0]] + rest.pending, rest.thrown)
      else
        match MakeReport(spec, calls[0].id, calls[0].status, calls[0].message)
        case Ok(r) => RunResult([r] + rest.reports, rest.pending, rest.thrown)
        case Err(e) => RunResult([], [], Some(e))
  }

  /** When every identifier is in the catalogue, `run` throws nothing,
      delivers one record per immediate check and leaves every deferred
      check pending, in declaration order. */
  lemma {:induction false} RunAllKnown<M>(spec: Catalogue, calls: seq<Invocation<M>>)
    requires forall k :: 0 <= k < |calls| ==> calls[k].id in spec
    ensures RunAll(spec, calls).thrown == None
    ensures RunAll(spec, calls).pending == Deferred(calls)
    ensures |RunAll(spec, calls).reports| == |Immediate(calls)|
    decreases |calls|
  {
    if calls != [] {
      var tail := calls[1..];
      assert forall k :: 1 <= k < |calls| ==> tail[k - 1] == calls[k];
      RunAllKnown(spec, tail);
      assert MakeReport(spec, calls[0].id, calls[0].status, calls[0].message).Ok?;
    }
  }

  /** ... and the records are the ones `report` builds for the immediate
      checks, in declaration order. */
  lemma {:induction false} RunAllComplete<M>(spec: Catalogue, calls: seq<Invocation<M>>)
    requires forall k :: 0 <= k < |calls| ==> calls[k].id in spec
    ensures |RunAll(spec, calls).reports| == |Immediate(calls)|
    ensures forall k :: 0 <= k < |Immediate(calls)| ==>
      MakeReport(spec, Immediate(calls)[k].id, Immediate(calls)[k].status, Immediate(calls)[k].message)
        == Ok(RunAll(spec, calls).reports[k])
    decreases |calls|
  {
    RunAllKnown(spec, calls);
    if calls != [] {
      var tail := calls[1..];
      assert forall k :: 1 <= k < |calls| ==> tail[k - 1] == calls[k];
      RunAllComplete(spec, tail);
      var c := calls[0];
      if c.deferred {
        assert Immediate(calls) == Immediate(tail);
      } else {
        var r := MakeReport(spec, c.id, c.status, c.message);
        assert r.Ok?;
        assert Immediate(calls) == [c] + Immediate(tail);
        assert RunAll(spec, calls).reports == [r.value] + RunAll(spec, tail).reports;
      }
    }
  }

  /** The first check goes to the side of its kind. */
  lemma SplitCons<M>(x: Invocation<M>, rest: seq<Invocation<M>>)
    ensures Immediate([x] + rest) == (if x.deferred then [] else [x]) + Immediate(rest)
    ensures Deferred([x] + rest) == (if x.deferred then [x] else []) + Deferred(rest)
  {
    assert ([x] + rest)[1..] == rest;
  }

  /** Without deferred checks, every check is immediate and nothing is
      left pending. */
  lemma {:induction false} NoneDeferred<M>(calls: seq<Invocation<M>>)
    requires forall k :: 0 <= k < |calls| ==> !calls[k].deferred
    ensures Immediate(calls) == calls && Deferred(calls) == []
    decreases |calls|
  {
    if calls != [] {
      assert forall k :: 1 <= k < |calls| ==> calls[1..][k - 1] == calls[k];
      NoneDeferred(calls[1..]);
      assert [calls[0]] + calls[1..] == calls;
    }
  }

  /** A run that threw nothing, delivered, in order, the record `report`
      builds for each immediate check of `calls`, and left the deferred
      ones pending. */
  ghost predicate DeliversEach<M>(spec: Catalogue, calls: seq<Invocation<M>>, r: RunResult<M>) {
    && r.thrown == None
    && r.pending == Deferred(calls)
    && |r.reports| == |Immediate(calls)|
    && forall k :: 0 <= k < |Immediate(calls)| ==>
         MakeReport(spec, Immediate(calls)[k].id, Immediate(calls)[k].status, Immediate(calls)[k].message)
           == Ok(r.reports[k])
  }

  /** `RunAllComplete` for a suite whose checks report the identifiers
      `ids`, all of them in the catalogue. */
  lemma RunKnownIds<M>(spec: Catalogue, calls: seq<Invocation<M>>, ids: seq<string>)
    requires |calls| == |ids|
    requires forall k :: 0 <= k < |ids| ==> calls[k].id == ids[k] && ids[k] in spec
    ensures DeliversEach(spec, calls, RunAll(spec, calls))
  {
    RunAllKnown(spec, calls);
    RunAllComplete(spec, calls);
  }

  /** `run` throws exactly when an immediate check names an identifier
      missing from the catalogue; a deferred one never makes it throw. */
  lemma {:induction false} RunAllThrows<M>(spec: Catalogue, calls: seq<Invocation<M>>)
    ensures RunAll(spec, calls).thrown.Some? <==>
      exists k :: 0 <= k < |calls| && calls[k].id !in spec && !calls[k].deferred
    decreases |calls|
  {
    if calls != [] {
      RunAllThrows(spec, calls[1..]);
      assert forall k :: 1 <= k < |calls| ==> calls[1..][k - 1] == calls[k];
      if exists k :: 1 <= k < |calls| && calls[k].id !in spec && !calls[k].deferred {
        var k :| 1 <= k < |calls| && calls[k].id !in spec && !calls[k].deferred;
        assert calls[1..][k - 1] == calls[k];
      }
    }
  }

  /** The error `run` throws names the first immediate check with an
      unknown identifier; the immediate checks before it have reported
      and the deferred checks before it have started. */
  lemma {:induction false} RunAllStopsAtFirstUnknown<M>(spec: Catalogue, calls: seq<Invocation<M>>, i: nat)
    requires i < |calls| && calls[i].id !in spec && !calls[i].deferred
    requires forall k :: 0 <= k < i ==> calls[k].id in spec || calls[k].deferred
    ensures RunAll(spec, calls).thrown == Some(InvalidIdentifier(calls[i].id))
    ensures |RunAll(spec, calls).reports| == |Immediate(calls[..i])|
    ensures RunAll(spec, calls).pending == Deferred(calls[..i])
    decreases i
  {
    if i > 0 {
      assert calls[1..][i - 1] == calls[i];
      assert forall k :: 0 <= k < i - 1 ==> calls[1..][k] == calls[k + 1];
      RunAllStopsAtFirstUnknown(spec, calls[1..], i - 1);
      assert calls[..i][1..] == calls[1..][..i - 1];
    }
  }

  /** The base of every suite: the catalogue, and the reporting sink as
      the sequence of records delivered so far. */
  class TestSuite<M> {
    const spec: Catalogue
    var reports: seq<CheckResult<M>>

    constructor(spec: Catalogue)
      ensures this.spec == spec && reports == []
    {
      this.spec := spec;
      reports := [];
    }

    /** `report(id, status, message)`: delivers one record, or throws when
        the catalogue does not know `id` and then delivers nothing. */
    method Report(id: string, status: JsValue, message: M) returns (thrown: Option<string>)
      modifies this
      ensures id in spec ==>
        thrown == None && reports == old(reports) + [MakeReport(spec, id, status, message).value]
      ensures id !in spec ==> thrown == Some(InvalidIdentifier(id)) && reports == old(reports)
    {
      match MakeReport(spec, id, status, message)
      case Ok(r) =>
        reports := reports + [r];
        thrown := None;
      case Err(e) =>
        thrown := Some(e);
    }

    /** `run()`: every check, in declaration order, calls `report` at once
        or starts its asynchronous work. */
    method Run(calls: seq<Invocation<M>>) returns (thrown: Option<string>, pending: seq<Invocation<M>>)
      modifies this
      ensures reports == old(reports) + RunAll(spec, calls).reports
      ensures pending == RunAll(spec, calls).pending
      ensures thrown == RunAll(spec, calls).thrown
    {
      ghost var emitted: seq<CheckResult<M>> := [];
      pending := [];
      var i := 0;
      while i < |calls|
        invariant 0 <= i <= |calls|
        invariant reports == old(reports) + emitted
        invariant RunAll(spec, calls)
          == RunResult(emitted + RunAll(spec, calls[i..]).reports,
                       pending + RunAll(spec, calls[i..]).pending,
                       RunAll(spec, calls[i..]).thrown)
      {
        assert calls[i..][1..] == calls[i + 1..];
        if calls[i].deferred {
          pending := pending + [calls[i]];
        } else {
          var t := Report(calls[i].id, calls[i].status, calls[i].message);
          if t.Some? {
            thrown := t;
            return;
          }
          emitted := emitted + [reports[|reports| - 1]];
        }
        i := i + 1;
      }
      thrown := None;
    }

    /** The promise callback of a deferred check: it calls `report`, and
        an unknown identifier only rejects the promise, so nothing is
        delivered and nothing escapes. */
    method Settle(call: Invocation<M>)
      modifies this
      ensures call.id in spec ==>
        reports == old(reports) + [MakeReport(spec, call.id, call.status, call.message).value]
      ensures call.id !in spec ==> reports == old(reports)
    {
      var _ := Report(call.id, call.status, call.message);
    }
  }
}
