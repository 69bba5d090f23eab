/**
 * The three lists of security-check.js's `SecurityChecker` (`errors`,
 * `warnings`, `passed`) and how a check's findings land in them: every
 * finding is appended to exactly one list, and nothing is ever removed.
 */
module SecurityReport {

  datatype Level = Error | Warning | Passed

  /** One `this.<list>.push(message)`. */
  datatype Entry = Entry(level: Level, msg: string)

  datatype Report = Report(errors: seq<string>, warnings: seq<string>, passed: seq<string>)

  const Empty := Report([], [], [])

  /** Append one finding to the list its level names. */
  function Record(r: Report, e: Entry): Report {
    match e.level
    case Error => r.(errors := r.errors + [e.msg])
    case Warning => r.(warnings := r.warnings + [e.msg])
    case Passed => r.(passed := r.passed + [e.msg])
  }

  /** Append the findings in order. */
  function RecordAll(r: Report, es: seq<Entry>): Report
    decreases |es|
  {
    if es == [] then r else Record(RecordAll(r, es[..|es| - 1]), es[|es| - 1])
  }

  /** The messages of the findings at `level`, in order. */
  function Messages(es: seq<Entry>, level: Level): (ms: seq<string>)
    decreases |es|
    ensures |ms| <= |es|
  {
    if es == [] then []
    else Messages(es[..|es| - 1], level) + (if es[|es| - 1].level == level then [es[|es| - 1].msg] else [])
  }

  // ---------------------------------------------------------------------------
  // Properties

  /** The lists only grow: each is the old list followed by the findings at its level. */
  lemma {:induction false} RecordAllAppends(r: Report, es: seq<Entry>)
    decreases |es|
    ensures RecordAll(r, es) == Report(r.errors + Messages(es, Error), r.warnings + Messages(es, Warning), r.passed + Messages(es, Passed))
  {
    if es != [] {
      RecordAllAppends(r, es[..|es| - 1]);
    }
  }

  lemma {:induction false} MessagesConcat(a: seq<Entry>, b: seq<Entry>, level: Level)
    decreases |b|
    ensures Messages(a + b, level) == Messages(a, level) + Messages(b, level)
  {
    if b == [] {
      assert a + b == a;
    } else {
      assert (a + b)[..|a + b| - 1] == a + b[..|b| - 1];
      MessagesConcat(a, b[..|b| - 1], level);
    }
  }

  /** Recording two batches one after the other is recording their concatenation. */
  lemma {:induction false} RecordAllConcat(r: Report, a: seq<Entry>, b: seq<Entry>)
    ensures RecordAll(RecordAll(r, a), b) == RecordAll(r, a + b)
  {
    RecordAllAppends(r, a);
    RecordAllAppends(RecordAll(r, a), b);
    RecordAllAppends(r, a + b);
    MessagesConcat(a, b, Error);
    MessagesConcat(a, b, Warning);
    MessagesConcat(a, b, Passed);
    var e, w, p := Messages(a, Error), Messages(a, Warning), Messages(a, Passed);
    assert r.errors + e + Messages(b, Error) == r.errors + (e + Messages(b, Error));
    assert r.warnings + w + Messages(b, Warning) == r.warnings + (w + Messages(b, Warning));
    assert r.passed + p + Messages(b, Passed) == r.passed + (p + Messages(b, Passed));
  }

  /** Every finding lands in exactly one list. */
  lemma {:induction false} MessagesPartition(es: seq<Entry>)
    decreases |es|
    ensures |Messages(es, Error)| + |Messages(es, Warning)| + |Messages(es, Passed)| == |es|
  {
    if es != [] {
      MessagesPartition(es[..|es| - 1]);
    }
  }

  /** No message at `level` exactly when no finding has that level. */
  lemma {:induction false} MessagesEmpty(es: seq<Entry>, level: Level)
    decreases |es|
    ensures Messages(es, level) == [] <==> forall i :: 0 <= i < |es| ==> es[i].level != level
  {
    if es != [] {
      MessagesEmpty(es[..|es| - 1], level);
      assert forall i :: 0 <= i < |es| - 1 ==> es[..|es| - 1][i] == es[i];
    }
  }

  /** The counts the report prints are the lengths of the lists, each grown by its findings. */
  lemma RecordAllCounts(r: Report, es: seq<Entry>)
    ensures var r' := RecordAll(r, es);
      |r'.errors| + |r'.warnings| + |r'.passed| == |r.errors| + |r.warnings| + |r.passed| + |es|
  {
    RecordAllAppends(r, es);
    MessagesPartition(es);
  }
}
