/** Exporting the kernel's per-event packet counters as series that never go backwards, even
    though every table rebuild starts the counters over. */
module KernelCounter {
  import opened Wrappers

  const EVENTS := ["rst", "syn", "fin", "data", "ack_only", "fragment", "undecodable"]

  function EventByName(name: string): Option<nat> {
    if name in EVENTS then Some(IndexOf(EVENTS, name)) else None
  }

  function IndexOf(names: seq<string>, name: string): (i: nat)
    requires name in names
    ensures i < |names| && names[i] == name
  {
    if names[0] == name then 0 else IndexOf(names[1..], name) + 1
  }

  lemma EventNamesAreDistinct(i: nat)
    requires i < |EVENTS|
    ensures EventByName(EVENTS[i]) == Some(i)
  {
    var n := EVENTS[i];
    assert EVENTS[i] in EVENTS;
    var j := IndexOf(EVENTS, n);
    assert EVENTS[0] == "rst" && EVENTS[1] == "syn" && EVENTS[2] == "fin" && EVENTS[3] == "data"
      && EVENTS[4] == "ack_only" && EVENTS[5] == "fragment" && EVENTS[6] == "undecodable";
    assert |EVENTS[0]| == 3 && EVENTS[0][0] == 'r' && EVENTS[1][0] == 's' && EVENTS[2][0] == 'f' && EVENTS[2][1] == 'i'
      && EVENTS[3][0] == 'd' && EVENTS[4][0] == 'a' && EVENTS[5][0] == 'f' && EVENTS[5][1] == 'r' && EVENTS[6][0] == 'u';
  }

  /** What one reading of a counter adds: the growth since the last reading, or, after a
      visible restart, all it holds. */
  function Growth(last: nat, v: nat): nat {
    if v >= last then v - last else v
  }

  /** The counts one read of the table returned. */
  type Readout = map<string, nat>

  class KernelSource {
    var total: seq<nat>
    var lastRaw: seq<nat>
    /** A read is in flight. */
    var reading: bool
    var readCount: nat
    var readErrors: nat

    ghost predicate Valid()
      reads this`total, this`lastRaw
    {
      |total| == |lastRaw| == |EVENTS|
    }

    constructor ()
      ensures Valid() && total == seq(|EVENTS|, i => 0) && lastRaw == seq(|EVENTS|, i => 0) && !reading && readCount == 0
    {
      total, lastRaw := seq(|EVENTS|, i => 0), seq(|EVENTS|, i => 0);
      reading, readCount, readErrors := false, 0, 0;
    }

    /** The first half of refresh: at most one read at a time, and none while the last one is
        fresh; whoever does not read goes away with the totals there are. */
    method Begin(recent: bool) returns (go: bool)
      modifies this`reading
      ensures go <==> !old(reading) && !recent
      ensures reading == (old(reading) || go)
    {
      if reading || recent {
        return false;
      }
      reading := true;
      return true;
    }

    method Add(e: nat, v: nat)
      requires Valid() && e < |EVENTS|
      modifies this`total, this`lastRaw
      ensures Valid()
      ensures total == old(total)[e := old(total)[e] + Growth(old(lastRaw)[e], v)]
      ensures lastRaw == old(lastRaw)[e := v]
    {
      if v >= lastRaw[e] {
        total := total[e := total[e] + (v - lastRaw[e])];
      } else {
        // the table was rebuilt, and everything it holds now is new
        total := total[e := total[e] + v];
      }
      lastRaw := lastRaw[e := v];
    }

    /** The second half, back under the lock: a failed read changes no total, a good one adds
        each counter's growth, and a counter it does not mention stays as it was. */
    method Finish(raw: Option<Readout>)
      requires Valid() && reading
      modifies this
      ensures Valid() && !reading && readCount == old(readCount) + 1
      ensures readErrors == old(readErrors) + (if raw.None? then 1 else 0)
      ensures forall e :: 0 <= e < |EVENTS| ==>
                if raw.Some? && EVENTS[e] in raw.value then
                  total[e] == old(total)[e] + Growth(old(lastRaw)[e], raw.value[EVENTS[e]]) && lastRaw[e] == raw.value[EVENTS[e]]
                else total[e] == old(total)[e] && lastRaw[e] == old(lastRaw)[e]
    {
      reading := false;
      readCount := readCount + 1;
      if raw.None? {
        readErrors := readErrors + 1;
        return;
      }
      hide EventByName, Growth;
      var todo := raw.value.Keys;
      while todo != {}
        invariant Valid() && todo <= raw.value.Keys
        invariant !reading && readCount == old(readCount) + 1 && readErrors == old(readErrors)
        invariant forall e :: 0 <= e < |EVENTS| ==>
                    if EVENTS[e] in raw.value && EVENTS[e] !in todo then
                      total[e] == old(total)[e] + Growth(old(lastRaw)[e], raw.value[EVENTS[e]]) && lastRaw[e] == raw.value[EVENTS[e]]
                    else total[e] == old(total)[e] && lastRaw[e] == old(lastRaw)[e]
        decreases |todo|
      {
        var name :| name in todo;
        var known := EventByName(name);
        if known.Some? {
          EventIsItsName(name);
          Add(known.value, raw.value[name]);
        }
        todo := todo - {name};
      }
    }
  }

  lemma EventIsItsName(name: string)
    requires EventByName(name).Some?
    ensures var e := EventByName(name).value; e < |EVENTS| && EVENTS[e] == name
    ensures forall d :: 0 <= d < |EVENTS| && EVENTS[d] == name ==> d == EventByName(name).value
  {
    forall d | 0 <= d < |EVENTS| && EVENTS[d] == name
      ensures d == EventByName(name).value
    {
      EventNamesAreDistinct(d);
    }
  }

  // ---------------------------------------------------------------- one series against the truth

  datatype Step =
    | Packet               // the kernel counts one packet
    | Rebuild              // the table is replaced, its counter starts over
    | Reading              // a read that reports the counter
    | Missed               // a read that failed, or did not report it

  /** One event's exported total and last reading, beside what really happened: packets
      counted, the counter, and of what the counter lost since the last reading, how much. */
  datatype Series = Series(total: nat, last: nat, truth: nat, counter: nat, wiped: nat, rebuilt: bool, lost: nat)

  const NEW_SERIES := Series(0, 0, 0, 0, 0, false, 0)

  /** What a reading leaves uncounted for good: whatever the counter held at rebuilds beyond
      the last reading, and that last reading too if the counter has since overtaken it, so
      that the restart does not show. */
  function LostByReading(s: Series): int {
    if !s.rebuilt then 0
    else if s.counter >= s.last then s.wiped
    else s.wiped - s.last
  }

  function Do(s: Series, step: Step): Series
    requires Consistent(s)
  {
    match step
    case Packet => s.(truth := s.truth + 1, counter := s.counter + 1)
    case Rebuild => s.(wiped := s.wiped + s.counter, counter := 0, rebuilt := true)
    case Reading =>
      s.(total := s.total + Growth(s.last, s.counter), last := s.counter, wiped := 0, rebuilt := false,
         lost := s.lost + LostByReading(s))
    case Missed => s
  }

  /** The books balance: every packet is exported, lost for good, or not yet read. */
  ghost predicate Consistent(s: Series) {
    && s.truth == s.total + s.lost + s.wiped + s.counter - s.last
    && (if s.rebuilt then s.wiped >= s.last else s.wiped == 0 && s.counter >= s.last)
  }

  lemma StepKeepsConsistent(s: Series, step: Step)
    requires Consistent(s)
    ensures Consistent(Do(s, step))
    ensures s.total <= Do(s, step).total && s.lost <= Do(s, step).lost
  {
  }

  ghost function Exec(s: Series, steps: seq<Step>): Series
    requires Consistent(s)
    decreases |steps|
  {
    if steps == [] then s
    else
      StepKeepsConsistent(s, steps[0]);
      Exec(Do(s, steps[0]), steps[1..])
  }

  /** Over any sequence of packets, rebuilds, readings and failures the exported total never
      decreases and never exceeds the true number of packets. */
  lemma {:induction false} TotalsAreMonotoneAndHonest(s: Series, steps: seq<Step>)
    requires Consistent(s)
    ensures Consistent(Exec(s, steps))
    ensures s.total <= Exec(s, steps).total <= Exec(s, steps).truth && s.lost <= Exec(s, steps).lost
    decreases |steps|
  {
    if steps != [] {
      StepKeepsConsistent(s, steps[0]);
      TotalsAreMonotoneAndHonest(Do(s, steps[0]), steps[1..]);
    }
  }

  /** A reading loses nothing exactly when no table was rebuilt since the last one, or every
      rebuilt table had been read to its end and the restart shows, or nothing had been
      counted at all. */
  ghost predicate Lossless(s: Series) {
    !s.rebuilt || (s.counter < s.last && s.wiped == s.last) || s.wiped == 0
  }

  /** Every reading in the run was lossless. */
  ghost predicate AllLossless(s: Series, steps: seq<Step>)
    requires Consistent(s)
    decreases |steps|
  {
    steps == [] ||
    (StepKeepsConsistent(s, steps[0]);
     (steps[0].Reading? ==> Lossless(s)) && AllLossless(Do(s, steps[0]), steps[1..]))
  }

  lemma LosslessMeansNothingLost(s: Series)
    requires Consistent(s)
    ensures LostByReading(s) >= 0 && (LostByReading(s) == 0 <==> Lossless(s))
  {
  }

  lemma {:induction false} LostExactlyWhen(s: Series, steps: seq<Step>)
    requires Consistent(s)
    ensures Exec(s, steps).lost == s.lost <==> AllLossless(s, steps)
    decreases |steps|
  {
    if steps != [] {
      StepKeepsConsistent(s, steps[0]);
      LosslessMeansNothingLost(s);
      LostExactlyWhen(Do(s, steps[0]), steps[1..]);
      TotalsAreMonotoneAndHonest(Do(s, steps[0]), steps[1..]);
    }
  }

  lemma ReadingIsExact(s: Series)
    requires Consistent(s)
    ensures Do(s, Reading).total == Do(s, Reading).truth <==> s.lost == 0 && Lossless(s)
  {
    LosslessMeansNothingLost(s);
  }

  lemma NewSeriesBalances()
    ensures Consistent(NEW_SERIES) && NEW_SERIES == Series(0, 0, 0, 0, 0, false, 0)
  {
  }

  /** From the start to a reading, the exported total is the true number of packets if and
      only if every reading on the way was lossless. */
  lemma TotalIsExactExactlyWhen(steps: seq<Step>)
    ensures Consistent(NEW_SERIES) && Consistent(Exec(NEW_SERIES, steps))
    ensures var before := Exec(NEW_SERIES, steps);
            Do(before, Reading).total == Do(before, Reading).truth <==> AllLossless(NEW_SERIES, steps) && Lossless(before)
  {
    hide *;
    NewSeriesBalances();
    TotalsAreMonotoneAndHonest(NEW_SERIES, steps);
    LostExactlyWhen(NEW_SERIES, steps);
    ReadingIsExact(Exec(NEW_SERIES, steps));
  }

  lemma ExecFront(s: Series, step: Step, rest: seq<Step>)
    requires Consistent(s)
    ensures Consistent(Do(s, step)) && Exec(s, [step] + rest) == Exec(Do(s, step), rest)
  {
    StepKeepsConsistent(s, step);
    assert ([step] + rest)[1..] == rest;
  }

  lemma Did(s: Series)
    requires Consistent(s)
    ensures Do(s, Packet) == s.(truth := s.truth + 1, counter := s.counter + 1)
    ensures Do(s, Rebuild) == s.(wiped := s.wiped + s.counter, counter := 0, rebuilt := true)
    ensures !s.rebuilt ==> Do(s, Reading) == s.(total := s.total + s.counter - s.last, last := s.counter, wiped := 0)
    ensures s.rebuilt && s.counter < s.last ==> Do(s, Reading).total == s.total + s.counter && Do(s, Reading).truth == s.truth
  {
  }

  /** Seeing the restart is not enough: a packet counted between the last reading and the
      rebuild is lost although the counter went backwards. */
  lemma VisibleRestartCanStillLose() returns (steps: seq<Step>)
    ensures Consistent(NEW_SERIES) && Consistent(Exec(NEW_SERIES, steps))
    ensures var s := Exec(NEW_SERIES, steps);
            s.rebuilt && s.counter < s.last && Do(s, Reading).total < Do(s, Reading).truth
  {
    hide *;
    NewSeriesBalances();
    var r5: seq<Step> := [Packet] + [];
    var r4 := [Rebuild] + r5;
    var r3 := [Packet] + r4;
    var r2 := [Reading] + r3;
    var r1 := [Packet] + r2;
    steps := [Packet] + r1;
    Did(NEW_SERIES);
    ExecFront(NEW_SERIES, Packet, r1);
    var s1 := Do(NEW_SERIES, Packet);
    Did(s1);
    ExecFront(s1, Packet, r2);
    var s2 := Do(s1, Packet);
    Did(s2);
    ExecFront(s2, Reading, r3);
    var s3 := Do(s2, Reading);
    Did(s3);
    ExecFront(s3, Packet, r4);
    var s4 := Do(s3, Packet);
    Did(s4);
    ExecFront(s4, Rebuild, r5);
    var s5 := Do(s4, Rebuild);
    Did(s5);
    ExecFront(s5, Packet, []);
    var s6 := Do(s5, Packet);
    ExecNothing(s6);
    Did(s6);
  }

  lemma ExecNothing(s: Series)
    requires Consistent(s)
    ensures Exec(s, []) == s
  {
  }
}
