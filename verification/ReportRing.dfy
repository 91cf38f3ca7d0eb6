/**
The ring of torrent reports: it holds the newest reports and counts those it overwrote.  `log` is
every report since the last flush.
 */
module ReportRing {

  const CAPACITY: nat := 1024
  const WRAP: nat := 0x1_0000_0000_0000_0000

  /** The newest reports of a log, oldest first. */
  function Recent<T>(log: seq<T>): (out: seq<T>)
    ensures |out| == if |log| < CAPACITY then |log| else CAPACITY
  {
    if |log| <= CAPACITY then log else log[|log| - CAPACITY..]
  }

  function Unrolled<T>(reports: seq<T>, head: nat): seq<T>
    requires head <= |reports|
  {
    reports[head..] + reports[..head]
  }

  lemma {:induction false} OverwriteLast<T>(reports: seq<T>, report: T)
    requires reports != []
    ensures Unrolled(reports[|reports| - 1 := report], 0) == Unrolled(reports, |reports| - 1)[1..] + [report]
  {
    var head := |reports| - 1;
    var now, was := reports[head := report], Unrolled(reports, head);
    assert was == [reports[head]] + reports[..head];
    assert was[1..] == reports[..head];
    assert now == reports[..head] + [report];
    assert Unrolled(now, 0) == now;
  }

  lemma {:induction false} OverwriteInside<T>(reports: seq<T>, head: nat, report: T)
    requires head + 1 < |reports|
    ensures Unrolled(reports[head := report], head + 1) == Unrolled(reports, head)[1..] + [report]
  {
    var now, was := reports[head := report], Unrolled(reports, head);
    var later, earlier := reports[head + 1..], reports[..head];
    assert now[head + 1..] == later;
    assert now[..head + 1] == earlier + [report];
    assert reports[head..] == [reports[head]] + later;
    assert was == [reports[head]] + (later + earlier);
    assert was[1..] == later + earlier;
    assert later + (earlier + [report]) == later + earlier + [report];
  }

  /** Overwriting the oldest report of a full ring is dropping it and appending the new one. */
  lemma {:induction false} OverwriteOldest<T>(reports: seq<T>, head: nat, report: T)
    requires head < |reports| == CAPACITY
    ensures Unrolled(reports[head := report], (head + 1) % CAPACITY) == Unrolled(reports, head)[1..] + [report]
  {
    if head + 1 == CAPACITY {
      OverwriteLast(reports, report);
    } else {
      OverwriteInside(reports, head, report);
    }
  }

  lemma {:induction false} RecentNext<T>(log: seq<T>, report: T)
    ensures Recent(log + [report]) == if |log| < CAPACITY then Recent(log) + [report] else Recent(log)[1..] + [report]
  {
  }

  class State<T> {
    var reports: seq<T>
    var head: nat
    var dropped: nat
    ghost var log: seq<T>

    ghost predicate Valid()
      reads this
    {
      && |reports| <= CAPACITY && head < CAPACITY
      && (|reports| < CAPACITY ==> head == 0)
      && Unrolled(reports, head) == Recent(log)
      && dropped == (|log| - |reports|) % WRAP
    }

    constructor ()
      ensures Valid() && log == []
    {
      reports, head, dropped, log := [], 0, 0, [];
    }

    method AddReport(report: T) returns (overwrote: bool)
      requires Valid()
      modifies this
      ensures Valid() && log == old(log) + [report]
      ensures overwrote == (|old(log)| >= CAPACITY)
    {
      RecentNext(log, report);
      ghost var before := |log| - |reports|;
      if |reports| == CAPACITY {
        OverwriteOldest(reports, head, report);
        reports := reports[head := report];
        head := (head + 1) % CAPACITY;
        dropped := (dropped + 1) % WRAP;
        log := log + [report];
        assert (before % WRAP + 1) % WRAP == (before + 1) % WRAP;
        return true;
      }
      assert Unrolled(reports, 0) == reports && Unrolled(reports + [report], 0) == reports + [report];
      reports := reports + [report];
      log := log + [report];
      overwrote := false;
    }

    /** The newest reports since the last flush in arrival order, and how many were overwritten. */
    method FlushReports() returns (out: seq<T>, lost: nat)
      requires Valid()
      modifies this
      ensures Valid() && log == []
      ensures out == Recent(old(log)) && lost == (|old(log)| - |out|) % WRAP
    {
      out := reports;
      if head != 0 {
        out := reports[head..] + reports[..head];
      }
      lost := dropped;
      reports, head, dropped, log := [], 0, 0, [];
    }
  }

  // ---------- Whole histories ----------

  datatype Op<T> = Add(report: T) | Flush

  /** What is pending after a history. */
  function Pending<T>(ops: seq<Op<T>>): seq<T> {
    if ops == [] then []
    else
      var n := |ops| - 1;
      match ops[n]
      case Add(report) => Pending(ops[..n]) + [report]
      case Flush => []
  }

  function Adds<T>(ops: seq<Op<T>>): nat {
    if ops == [] then 0
    else
      var n := |ops| - 1;
      Adds(ops[..n]) + if ops[n].Add? then 1 else 0
  }

  /** What the flushes of a history return: the newest pending reports, and how many were lost. */
  function Results<T>(ops: seq<Op<T>>): seq<(seq<T>, nat)> {
    if ops == [] then []
    else
      var n := |ops| - 1;
      var log := Pending(ops[..n]);
      Results(ops[..n]) + if ops[n].Flush? then [(Recent(log), (|log| - |Recent(log)|) % WRAP)] else []
  }

  /** How many reports some flushes returned or said were lost. */
  function Accounted<T>(outs: seq<(seq<T>, nat)>): nat {
    if outs == [] then 0
    else
      var n := |outs| - 1;
      Accounted(outs[..n]) + |outs[n].0| + outs[n].1
  }

  /** How often the lost counter went round. */
  function Rounds<T>(ops: seq<Op<T>>): nat {
    if ops == [] then 0
    else
      var n := |ops| - 1;
      var log := Pending(ops[..n]);
      Rounds(ops[..n]) + if ops[n].Flush? then (|log| - |Recent(log)|) / WRAP else 0
  }

  lemma {:induction false} RoundsCount<T>(ops: seq<Op<T>>)
    ensures Accounted(Results(ops)) + |Pending(ops)| + WRAP * Rounds(ops) == Adds(ops)
  {
    if ops != [] {
      var was := ops[..|ops| - 1];
      RoundsCount(was);
      if ops[|ops| - 1].Flush? {
        var lost := |Pending(was)| - |Recent(Pending(was))|;
        assert Results(ops)[..|Results(was)|] == Results(was);
        assert lost == WRAP * (lost / WRAP) + lost % WRAP;
      } else {
        assert Results(ops) == Results(was);
      }
    }
  }

  /**
  Every added report is returned by a flush, counted as lost by one, or still pending: exactly, until
  2^64 reports were added, and modulo 2^64 from there on.
   */
  lemma {:induction false} NothingUnaccounted<T>(ops: seq<Op<T>>)
    ensures (Accounted(Results(ops)) + |Pending(ops)|) % WRAP == Adds(ops) % WRAP
    ensures Adds(ops) < WRAP ==> Accounted(Results(ops)) + |Pending(ops)| == Adds(ops)
  {
    RoundsCount(ops);
    WholeRounds(Accounted(Results(ops)) + |Pending(ops)|, Rounds(ops));
  }

  lemma {:induction false} WholeRounds(n: nat, rounds: nat)
    ensures (n + WRAP * rounds) % WRAP == n % WRAP
  {
    if rounds != 0 {
      WholeRounds(n, rounds - 1);
      var m := n + WRAP * (rounds - 1);
      assert n + WRAP * rounds == m + WRAP;
      assert m == WRAP * (m / WRAP) + m % WRAP;
    }
  }

  lemma {:induction false} HistoryNext<T>(past: seq<Op<T>>, op: Op<T>)
    ensures op.Add? ==> Pending(past + [op]) == Pending(past) + [op.report] && Results(past + [op]) == Results(past)
    ensures op.Flush? ==>
      var log := Pending(past);
      Pending(past + [op]) == [] && Results(past + [op]) == Results(past) + [(Recent(log), (|log| - |Recent(log)|) % WRAP)]
  {
    assert (past + [op])[..|past|] == past;
  }

  /** One operation of a history. */
  method PlayNext<T>(ring: State<T>, op: Op<T>, outs: seq<(seq<T>, nat)>, ghost past: seq<Op<T>>) returns (now: seq<(seq<T>, nat)>)
    requires ring.Valid() && ring.log == Pending(past) && outs == Results(past)
    modifies ring
    ensures ring.Valid() && ring.log == Pending(past + [op]) && now == Results(past + [op])
  {
    HistoryNext(past, op);
    if op.Add? {
      var _ := ring.AddReport(op.report);
      now := outs;
    } else {
      var out, lost := ring.FlushReports();
      now := outs + [(out, lost)];
    }
  }

  method PlayAll<T>(ring: State<T>, ops: seq<Op<T>>) returns (outs: seq<(seq<T>, nat)>)
    requires ring.Valid() && ring.log == []
    modifies ring
    ensures ring.Valid() && ring.log == Pending(ops) && outs == Results(ops)
  {
    outs := [];
    for i := 0 to |ops|
      invariant ring.Valid() && ring.log == Pending(ops[..i]) && outs == Results(ops[..i])
    {
      ghost var past := ops[..i];
      outs := PlayNext(ring, ops[i], outs, past);
      assert ops[..i + 1] == past + [ops[i]];
    }
    assert ops[..|ops|] == ops;
  }

  /** Played on a fresh ring, any history of adds and flushes answers as the log does. */
  method Play<T>(ops: seq<Op<T>>) returns (outs: seq<(seq<T>, nat)>)
    ensures outs == Results(ops)
  {
    var ring := new State<T>();
    outs := PlayAll(ring, ops);
  }
}
