/**
 * `classify_batch`, the same in every classifier: classify the materials one
 * after the other on the same instance, record each outcome as a success or
 * a failure, and pause for the rate limit between two items.
 *
 * The classifier is a function from its state (the counters the retry loop
 * keeps on the instance) and one material to the outcome, the new state and
 * the sleeps it made, so the batch is fully determined by the state it
 * starts from.
 */
module Batch {
  import opened Wrappers
  import opened Assoc
  import opened Json
  import opened Material
  import opened Extraction
  import opened Validation
  import opened Retry
  import opened Results

  /** One entry of the batch result: the original material and its classification, or the error. */
  datatype Record =
    | Success(original: Row, classification: Pairs<string, Json>)
    | Failed(original: Row, error: Failure)

  /** What classifying one material does to a classifier whose state is of type `S`. */
  datatype Step<S> = Step(result: Result<Pairs<string, Json>, Failure>, state: S, pauses: seq<Pause>)

  /** What a batch does: the records, the final state, the sleeps. */
  datatype Outcome<S> = Outcome(records: seq<Record>, state: S, pauses: seq<Pause>)

  /** The record of one material. */
  function RecordOf(material: Row, r: Result<Pairs<string, Json>, Failure>): Record {
    match r
    case Ok(c) => Success(material, c)
    case Err(e) => Failed(material, e)
  }

  /** The batch over `rows` from state `st`: a rate-limit pause after every item but the last. */
  function Run<S>(classify: (S, Row) -> Step<S>, rows: seq<Row>, st: S): Outcome<S>
    decreases |rows|
  {
    if rows == [] then Outcome([], st, [])
    else
      var s := classify(st, rows[0]);
      var rest := Run(classify, rows[1..], s.state);
      Outcome([RecordOf(rows[0], s.result)] + rest.records, rest.state,
              s.pauses + (if |rows| > 1 then [RateLimit] else []) + rest.pauses)
  }

  /**
   * The loop of `classify_batch` after `i` materials: the records so far
   * followed by the rest of the batch, from the state the `i` materials left.
   */
  ghost predicate After<S>(classify: (S, Row) -> Step<S>, rows: seq<Row>, total: Outcome<S>, i: nat,
                           records: seq<Record>, st: S, pauses: seq<Pause>)
    requires i <= |rows|
  {
    var rest := Run(classify, rows[i..], st);
    total == Outcome(records + rest.records, rest.state, pauses + rest.pauses)
  }

  /** One more material: its record, its sleeps and the rate-limit pause unless it is the last. */
  lemma AfterOneMore<S>(classify: (S, Row) -> Step<S>, rows: seq<Row>, total: Outcome<S>, i: nat,
                        records: seq<Record>, st: S, pauses: seq<Pause>)
    requires i < |rows| && After(classify, rows, total, i, records, st, pauses)
    ensures var s := classify(st, rows[i]);
      i < |rows| - 1 ==>
        After(classify, rows, total, i + 1, records + [RecordOf(rows[i], s.result)], s.state,
              pauses + s.pauses + [RateLimit])
    ensures var s := classify(st, rows[i]);
      i == |rows| - 1 ==>
        After(classify, rows, total, i + 1, records + [RecordOf(rows[i], s.result)], s.state, pauses + s.pauses)
  {
    var s := classify(st, rows[i]);
    var rest := Run(classify, rows[i + 1..], s.state);
    assert rows[i..][1..] == rows[i + 1..];
    var gap: seq<Pause> := if i < |rows| - 1 then [RateLimit] else [];
    assert Run(classify, rows[i..], st) == Outcome([RecordOf(rows[i], s.result)] + rest.records, rest.state, s.pauses + gap + rest.pauses);
    assert records + ([RecordOf(rows[i], s.result)] + rest.records) == (records + [RecordOf(rows[i], s.result)]) + rest.records;
    assert pauses + (s.pauses + gap + rest.pauses) == (pauses + s.pauses + gap) + rest.pauses;
    assert pauses + s.pauses + [] == pauses + s.pauses;
  }

  /** The state in which the `i`-th material is classified. */
  function StateBefore<S>(classify: (S, Row) -> Step<S>, rows: seq<Row>, st: S, i: nat): S
    requires i <= |rows|
    decreases i
  {
    if i == 0 then st else classify(StateBefore(classify, rows, st, i - 1), rows[i - 1]).state
  }

  /** The number of rate-limit pauses in `ps`. */
  function RateLimits(ps: seq<Pause>): nat {
    if ps == [] then 0 else (if ps[0] == RateLimit then 1 else 0) + RateLimits(ps[1..])
  }

  lemma {:induction false} RateLimitsAppend(a: seq<Pause>, b: seq<Pause>)
    ensures RateLimits(a + b) == RateLimits(a) + RateLimits(b)
  {
    if a != [] {
      RateLimitsAppend(a[1..], b);
      assert (a + b)[1..] == a[1..] + b;
    } else {
      assert a + b == b;
    }
  }

  /**
   * One record per material, in input order, each the record of classifying
   * that material in the state the materials before it left.
   */
  lemma {:induction false} RunRecords<S>(classify: (S, Row) -> Step<S>, rows: seq<Row>, st: S)
    ensures |Run(classify, rows, st).records| == |rows|
    ensures forall i :: 0 <= i < |rows| ==>
      Run(classify, rows, st).records[i] ==
        RecordOf(rows[i], classify(StateBefore(classify, rows, st, i), rows[i]).result)
    decreases |rows|
  {
    if rows != [] {
      var s := classify(st, rows[0]);
      RunRecords(classify, rows[1..], s.state);
      forall i | 1 <= i < |rows|
        ensures StateBefore(classify, rows, st, i) == StateBefore(classify, rows[1..], s.state, i - 1)
      {
        StateBeforeShift(classify, rows, st, i);
      }
    }
  }

  lemma {:induction false} StateBeforeShift<S>(classify: (S, Row) -> Step<S>, rows: seq<Row>, st: S, i: nat)
    requires 1 <= i <= |rows|
    ensures StateBefore(classify, rows, st, i) == StateBefore(classify, rows[1..], classify(st, rows[0]).state, i - 1)
    decreases i
  {
    if i > 1 {
      StateBeforeShift(classify, rows, st, i - 1);
      assert rows[1..][i - 2] == rows[i - 1];
    }
  }

  /** The batch ends in the state the last material left. */
  lemma {:induction false} RunState<S>(classify: (S, Row) -> Step<S>, rows: seq<Row>, st: S)
    ensures Run(classify, rows, st).state == StateBefore(classify, rows, st, |rows|)
    decreases |rows|
  {
    if rows != [] {
      RunState(classify, rows[1..], classify(st, rows[0]).state);
      StateBeforeShift(classify, rows, st, |rows|);
    }
  }

  /**
   * When classifying never pauses for the rate limit itself, a batch of `n`
   * materials makes exactly `n - 1` rate-limit pauses (none for an empty batch).
   */
  lemma {:induction false} RunRateLimits<S>(classify: (S, Row) -> Step<S>, rows: seq<Row>, st: S)
    requires forall st': S, row: Row :: RateLimits(classify(st', row).pauses) == 0
    ensures RateLimits(Run(classify, rows, st).pauses) == if rows == [] then 0 else |rows| - 1
    decreases |rows|
  {
    if rows != [] {
      var s := classify(st, rows[0]);
      var rest := Run(classify, rows[1..], s.state);
      RunRateLimits(classify, rows[1..], s.state);
      var gap: seq<Pause> := if |rows| > 1 then [RateLimit] else [];
      RateLimitsAppend(s.pauses + gap, rest.pauses);
      RateLimitsAppend(s.pauses, gap);
      assert RateLimits(gap) == if |rows| > 1 then 1 else 0 by {
        if |rows| > 1 {
          assert gap[1..] == [];
        }
      }
    }
  }

  /**
   * For any classifier whose own sleeps are never rate-limit pauses: a batch
   * yields one record per material, in input order, and pauses for the rate
   * limit exactly once between two consecutive materials.
   */
  lemma RunShape<S>(classify: (S, Row) -> Step<S>, rows: seq<Row>, st: S)
    requires forall st': S, row: Row :: RateLimits(classify(st', row).pauses) == 0
    ensures var o := Run(classify, rows, st);
      |o.records| == |rows| &&
      (forall i :: 0 <= i < |rows| ==> o.records[i].original == rows[i]) &&
      RateLimits(o.pauses) == if rows == [] then 0 else |rows| - 1
  {
    RunRecords(classify, rows, st);
    RunRateLimits(classify, rows, st);
  }

  /** The back-off sleeps of the retry loop are no rate-limit pauses. */
  lemma {:induction false} BackoffsOnly(ps: seq<Pause>)
    requires forall i :: 0 <= i < |ps| ==> ps[i].Backoff?
    ensures RateLimits(ps) == 0
  {
    if ps != [] {
      BackoffsOnly(ps[1..]);
    }
  }
}
