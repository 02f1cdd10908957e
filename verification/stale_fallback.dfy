/** The stale-fallback combiner both NFT flows use: every value is zipped
    with the last earlier value that counted as real data
    (`rememberAndZipAsPreviousIf`), and a value that is not real data is
    replaced by that remembered one when there is one. */
module StaleFallback {
  import opened Base

  /** The last element of `s` satisfying `p`: the meaning taken for the
      value `rememberAndZipAsPreviousIf` pairs with the current one. */
  function LastSatisfying<T>(s: seq<T>, p: T -> bool): (r: Option<T>)
    ensures r.None? <==> forall i :: 0 <= i < |s| ==> !p(s[i])
    ensures r.Some? ==>
              exists i :: 0 <= i < |s| && s[i] == r.value && p(s[i]) &&
                forall j :: i < j < |s| ==> !p(s[j])
  {
    if |s| == 0 then None
    else if p(s[|s| - 1]) then Some(s[|s| - 1])
    else
      var pre := s[..|s| - 1];
      var r := LastSatisfying(pre, p);
      assert forall i :: 0 <= i < |pre| ==> pre[i] == s[i];
      assert r.Some? ==> exists i :: 0 <= i < |s| && s[i] == r.value && p(s[i]) && forall j :: i < j < |s| ==> !p(s[j]) by {
        if r.Some? {
          var i :| 0 <= i < |pre| && pre[i] == r.value && p(pre[i]) && forall j :: i < j < |pre| ==> !p(pre[j]);
          assert forall j :: i < j < |s| ==> !p(s[j]);
        }
      }
      r
  }

  /** What the combiner sends for `current`, given the remembered value. */
  function Emit<T>(lastGood: Option<T>, current: T, isReal: T -> bool): T {
    if !isReal(current) && lastGood.Some? then lastGood.value else current
  }

  /** The remembered value after `current` has gone by. */
  function Remember<T>(lastGood: Option<T>, current: T, isReal: T -> bool): Option<T> {
    if isReal(current) then Some(current) else lastGood
  }

  /** The combiner's state after a whole trace, starting from `lastGood`. */
  function Remembered<T>(lastGood: Option<T>, trace: seq<T>, isReal: T -> bool): Option<T> {
    if |trace| == 0 then lastGood
    else Remember(Remembered(lastGood, trace[..|trace| - 1], isReal), trace[|trace| - 1], isReal)
  }

  /** The values the combiner sends for a trace, one per incoming value. */
  function Run<T>(lastGood: Option<T>, trace: seq<T>, isReal: T -> bool): (out: seq<T>)
    ensures |out| == |trace|
  {
    if |trace| == 0 then []
    else
      var pre := trace[..|trace| - 1];
      Run(lastGood, pre, isReal) + [Emit(Remembered(lastGood, pre, isReal), trace[|trace| - 1], isReal)]
  }

  /** The stepped state is the declarative "last real value so far". */
  lemma {:induction false} RememberedIsLastReal<T>(lastGood: Option<T>, trace: seq<T>, isReal: T -> bool)
    ensures Remembered(lastGood, trace, isReal)
         == match LastSatisfying(trace, isReal) case Some(v) => Some(v) case None => lastGood
  {
    if |trace| > 0 {
      RememberedIsLastReal(lastGood, trace[..|trace| - 1], isReal);
    }
  }

  /** The `i`-th value sent depends only on the trace up to `i`. */
  lemma {:induction false} RunAt<T>(lastGood: Option<T>, trace: seq<T>, isReal: T -> bool, i: int)
    requires 0 <= i < |trace|
    ensures Run(lastGood, trace, isReal)[i] == Emit(Remembered(lastGood, trace[..i], isReal), trace[i], isReal)
  {
    var pre := trace[..|trace| - 1];
    if i < |trace| - 1 {
      RunAt(lastGood, pre, isReal, i);
      assert pre[..i] == trace[..i];
    } else {
      assert pre == trace[..i];
    }
  }

  /** What the combiner sends, stated without its state: the current value
      when it is real data; otherwise the last real value seen before it,
      if any; otherwise the current value. */
  lemma FallbackShowsLastReal<T>(trace: seq<T>, isReal: T -> bool, i: int)
    requires 0 <= i < |trace|
    ensures isReal(trace[i]) ==> Run(None, trace, isReal)[i] == trace[i]
    ensures !isReal(trace[i]) && LastSatisfying(trace[..i], isReal).Some? ==>
              Run(None, trace, isReal)[i] == LastSatisfying(trace[..i], isReal).value
    ensures LastSatisfying(trace[..i], isReal).None? ==> Run(None, trace, isReal)[i] == trace[i]
  {
    RunAt(None, trace, isReal, i);
    RememberedIsLastReal(None, trace[..i], isReal);
  }

  /** The same, with the last real value located in the trace: it is at a
      position `k` before `i` with no real value between `k` and `i`. */
  lemma FallbackShowsLastRealAt<T>(trace: seq<T>, isReal: T -> bool, i: int)
    requires 0 <= i < |trace|
    ensures isReal(trace[i]) ==> Run(None, trace, isReal)[i] == trace[i]
    ensures !isReal(trace[i]) ==>
              || (exists k :: 0 <= k < i && isReal(trace[k]) && Run(None, trace, isReal)[i] == trace[k] &&
                   forall l :: k < l < i ==> !isReal(trace[l]))
              || ((forall k :: 0 <= k < i ==> !isReal(trace[k])) && Run(None, trace, isReal)[i] == trace[i])
  {
    FallbackShowsLastReal(trace, isReal, i);
    var pre := trace[..i];
    assert forall l :: 0 <= l < i ==> pre[l] == trace[l];
    var last := LastSatisfying(pre, isReal);
    if !isReal(trace[i]) && last.Some? {
      var k :| 0 <= k < i && pre[k] == last.value && isReal(pre[k]) && forall l :: k < l < i ==> !isReal(pre[l]);
      assert isReal(trace[k]) && Run(None, trace, isReal)[i] == trace[k];
    }
  }

  /** Every value sent is a value that came in, no later than its turn. */
  lemma SentWasReceived<T>(trace: seq<T>, isReal: T -> bool, i: int)
    requires 0 <= i < |trace|
    ensures exists k :: 0 <= k <= i && Run(None, trace, isReal)[i] == trace[k]
  {
    FallbackShowsLastReal(trace, isReal, i);
    var last := LastSatisfying(trace[..i], isReal);
    if !isReal(trace[i]) && last.Some? {
      var k :| 0 <= k < i && trace[..i][k] == last.value;
      assert trace[k] == last.value;
    }
  }

  /** A real value was sent only if a real value had come in by then. */
  lemma RealSentWasSeen<T>(trace: seq<T>, isReal: T -> bool, i: int) returns (k: int)
    requires 0 <= i < |trace|
    requires isReal(Run(None, trace, isReal)[i])
    ensures 0 <= k <= i && isReal(trace[k])
  {
    FallbackShowsLastReal(trace, isReal, i);
    if isReal(trace[i]) {
      k := i;
    } else {
      var last := LastSatisfying(trace[..i], isReal);
      k :| 0 <= k < i && trace[..i][k] == last.value && isReal(trace[..i][k]);
    }
  }

  /** Once a real value has come in, only real values are sent. */
  lemma RealSeenIsSent<T>(trace: seq<T>, isReal: T -> bool, k: int, j: int)
    requires 0 <= k <= j < |trace|
    requires isReal(trace[k])
    ensures isReal(Run(None, trace, isReal)[j])
  {
    FallbackShowsLastReal(trace, isReal, j);
    if !isReal(trace[j]) {
      assert trace[..j][k] == trace[k];
    }
  }

  /** No regression: once a real value has been sent, every later value
      sent is real as well. */
  lemma NoRegression<T>(trace: seq<T>, isReal: T -> bool, i: int, j: int)
    requires 0 <= i <= j < |trace|
    requires isReal(Run(None, trace, isReal)[i])
    ensures isReal(Run(None, trace, isReal)[j])
  {
    var k := RealSentWasSeen(trace, isReal, i);
    RealSeenIsSent(trace, isReal, k, j);
  }
}
