/** One engine's counters, and how a reading of them is tied to one engine. */
module Engines {
  import opened Wrappers
  import opened Queues
  import Runtimes

  class Counters {
    var packetsIn: nat
    var packetsOut: nat
    var bytesIn: nat
    var bytesOut: nat
    var untouched: nat
    var dropped: nat
    var tampered: nat
    var expanded: nat
    var errors: nat

    constructor ()
      ensures AtRest() && packetsIn == 0
    {
      packetsIn, packetsOut, bytesIn, bytesOut := 0, 0, 0, 0;
      untouched, dropped, tampered, expanded, errors := 0, 0, 0, 0, 0;
    }

    /** Every packet taken in had exactly one outcome. */
    predicate AtRest()
      reads this
    {
      packetsIn == untouched + dropped + tampered + expanded + errors
    }

    /** record. */
    method Record(r: Runtimes.Result)
      modifies this`packetsOut, this`bytesOut, this`untouched, this`dropped, this`tampered, this`expanded
      ensures packetsOut == old(packetsOut) + |r.packets| && bytesOut == old(bytesOut) + TotalBytes(r.packets)
      ensures untouched + dropped + tampered + expanded == old(untouched + dropped + tampered + expanded) + 1
      ensures untouched - old(untouched) == if r.outcome.Unchanged? then 1 else 0
      ensures dropped - old(dropped) == if r.outcome.Dropped? then 1 else 0
      ensures tampered - old(tampered) == if r.outcome.Tampered? then 1 else 0
    {
      packetsOut := packetsOut + |r.packets|;
      var i := 0;
      while i < |r.packets|
        invariant 0 <= i <= |r.packets|
        invariant bytesOut == old(bytesOut) + TotalBytes(r.packets[..i])
        modifies this`bytesOut
      {
        assert r.packets[..i + 1][..i] == r.packets[..i];
        bytesOut := bytesOut + |r.packets[i]|;
        i := i + 1;
      }
      assert r.packets[..i] == r.packets;
      if r.outcome.Unchanged? {
        untouched := untouched + 1;
      } else if r.outcome.Dropped? {
        dropped := dropped + 1;
      } else if r.outcome.Tampered? {
        tampered := tampered + 1;
      } else {
        expanded := expanded + 1;
      }
    }

    /** Process, for a loaded engine: `out` is what the strategy put out, or None when the
        packet could not be decoded or the strategy failed. */
    method Process(raw: Bytes, out: Option<seq<Bytes>>) returns (r: Option<Runtimes.Result>)
      requires AtRest()
      modifies this
      ensures AtRest() && packetsIn == old(packetsIn) + 1 && bytesIn == old(bytesIn) + |raw|
      ensures r.Some? <==> out.Some?
      ensures r.Some? ==> r.value.packets == out.value
      ensures r.Some? && r.value.outcome == Runtimes.Dropped <==> out == Some([])
      ensures r.Some? && r.value.outcome == Runtimes.Unchanged <==> out == Some([raw])
      ensures r.Some? && r.value.outcome == Runtimes.Expanded <==> out.Some? && |out.value| > 1
      // the outcome counted is what the strategy did
      ensures errors == old(errors) + (if out.None? then 1 else 0)
      ensures dropped == old(dropped) + (if out == Some([]) then 1 else 0)
      ensures untouched == old(untouched) + (if out == Some([raw]) then 1 else 0)
      ensures tampered == old(tampered) + (if out.Some? && |out.value| == 1 && out.value[0] != raw then 1 else 0)
      ensures expanded == old(expanded) + (if out.Some? && |out.value| > 1 then 1 else 0)
      ensures out.Some? ==> packetsOut == old(packetsOut) + |out.value| && bytesOut == old(bytesOut) + TotalBytes(out.value)
    {
      packetsIn := packetsIn + 1;
      bytesIn := bytesIn + |raw|;
      if out.None? {
        errors := errors + 1;
        return None;
      }
      Runtimes.ClassifyMeans(raw, out.value);
      var result := Runtimes.Classify(raw, out.value);
      Record(result);
      return Some(result);
    }
  }

  function TotalBytes(packets: seq<Bytes>): nat {
    if packets == [] then 0 else TotalBytes(packets[..|packets| - 1]) + |packets[|packets| - 1]|
  }
}
