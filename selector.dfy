/**
 The de-duplicating selectors of the store (`createSelector`): every snapshot of
 the state is projected onto one field and passed through `distinctUntilChanged`,
 so that a selector emits a value only when it differs, by strict equality, from
 the value it emitted last.  `shareReplay(1)` keeps that last value for late
 subscribers.

 A selector is described here by its emission log: the values it has emitted so
 far, oldest first.  A selector's first subscriber receives the state subject's
 current snapshot at once, so a log is never empty and its last element is the
 replayed value.
 */
module Selector {

  /** The most recently emitted value: what `shareReplay(1)` hands a new subscriber. */
  function Last<V>(log: seq<V>): V
    requires |log| > 0
  {
    log[|log| - 1]
  }

  /** No two consecutive emissions are equal. */
  ghost predicate NoRepeats<V>(log: seq<V>)
  {
    forall i :: 0 < i < |log| ==> log[i] != log[i - 1]
  }

  /** The emit decision of `distinctUntilChanged`: a new projected value is
      emitted exactly when it is not strictly equal to the last one emitted. */
  predicate SelectorStep<V(==)>(lastEmitted: V, newValue: V)
  {
    newValue != lastEmitted
  }

  /** The log after the selector sees one more projected value `v`. */
  function Emit<V(==)>(log: seq<V>, v: V): (r: seq<V>)
    requires |log| > 0
    ensures |r| > 0 && Last(r) == v
    ensures log <= r && |r| <= |log| + 1
    ensures r == log <==> v == Last(log)
    ensures NoRepeats(log) ==> NoRepeats(r)
  {
    if SelectorStep(Last(log), v) then log + [v] else log
  }

  /** The log after the selector sees the projected values `vs`, in order. */
  function EmitAll<V(==)>(log: seq<V>, vs: seq<V>): (r: seq<V>)
    requires |log| > 0
    ensures |r| > 0 && log <= r
    ensures |r| <= |log| + |vs|
    decreases |vs|
  {
    if |vs| == 0 then log else EmitAll(Emit(log, vs[0]), vs[1..])
  }

  /** Replay latest: after a non-empty stream, the selector holds the newest projected value. */
  lemma {:induction false} EmitAllLatest<V>(log: seq<V>, vs: seq<V>)
    requires |log| > 0 && |vs| > 0
    ensures Last(EmitAll(log, vs)) == Last(vs)
    decreases |vs|
  {
    if |vs| > 1 {
      EmitAllLatest(Emit(log, vs[0]), vs[1..]);
    }
  }

  /** A selector never emits the same value twice in a row. */
  lemma {:induction false} EmitAllNoRepeats<V>(log: seq<V>, vs: seq<V>)
    requires |log| > 0 && NoRepeats(log)
    ensures NoRepeats(EmitAll(log, vs))
    decreases |vs|
  {
    if |vs| > 0 {
      EmitAllNoRepeats(Emit(log, vs[0]), vs[1..]);
    }
  }

  /** Snapshots whose projection equals the last emitted value cause no emission. */
  lemma {:induction false} EmitAllSilent<V>(log: seq<V>, vs: seq<V>)
    requires |log| > 0
    requires forall i :: 0 <= i < |vs| ==> vs[i] == Last(log)
    ensures EmitAll(log, vs) == log
    decreases |vs|
  {
    if |vs| > 0 {
      EmitAllSilent(Emit(log, vs[0]), vs[1..]);
    }
  }

  /** Every projected value seen is, at the end, somewhere in the log. */
  lemma {:induction false} EmitAllComplete<V>(log: seq<V>, vs: seq<V>)
    requires |log| > 0
    ensures forall i :: 0 <= i < |vs| ==> vs[i] in EmitAll(log, vs)
    decreases |vs|
  {
    if |vs| > 0 {
      var log' := Emit(log, vs[0]);
      EmitAllComplete(log', vs[1..]);
      assert vs[0] in log';
      forall i | 0 <= i < |vs|
        ensures vs[i] in EmitAll(log, vs)
      {
        if i > 0 {
          assert vs[i] == vs[1..][i - 1];
        }
      }
    }
  }

  /** A selector invents nothing: every new emission is one of the projected values seen. */
  lemma {:induction false} EmitAllFromStream<V>(log: seq<V>, vs: seq<V>)
    requires |log| > 0
    ensures forall j :: |log| <= j < |EmitAll(log, vs)| ==> EmitAll(log, vs)[j] in vs
    decreases |vs|
  {
    if |vs| > 0 {
      var log' := Emit(log, vs[0]);
      EmitAllFromStream(log', vs[1..]);
      var r := EmitAll(log, vs);
      forall j | |log| <= j < |r|
        ensures r[j] in vs
      {
        if j < |log'| {
          assert r[j] == log'[j] == vs[0];
        } else {
          assert r[j] in vs[1..];
        }
      }
    }
  }
}
