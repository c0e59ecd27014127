/**
 * The decision core the two logic nodes share: an all/any aggregation of
 * per-device matches, and the committed result (`logicState`, `lastFlip`)
 * that changes only on an edge of the recomputed predicate.
 *
 * Ticks are abstract points in time: `new Date()` at the moment of a flip.
 */
module Edge {
  import opened Js

  type Tick = nat

  /** A logic node's committed result: `logicState` is null until the first commit. */
  datatype Committed = Committed(logicState: Option<bool>, lastFlip: Option<Tick>)

  const Initial: Committed := Committed(None, None)

  // ---------------------------------------------------------------- all / any

  /** `hits.every(x => x)` */
  function Every(hits: seq<bool>): bool {
    |hits| == 0 || (hits[0] && Every(hits[1..]))
  }

  /** `hits.some(x => x)` */
  function Any(hits: seq<bool>): bool {
    |hits| > 0 && (hits[0] || Any(hits[1..]))
  }

  /** Mode `all`: `values.length > 0 && values.every(match)`; any other mode: `values.some(match)`. */
  function Combine(all: bool, hits: seq<bool>): bool {
    if all then |hits| > 0 && Every(hits) else Any(hits)
  }

  lemma {:induction false} EveryAll(hits: seq<bool>)
    ensures Every(hits) <==> forall i :: 0 <= i < |hits| ==> hits[i]
  {
    if |hits| > 0 {
      EveryAll(hits[1..]);
      assert forall i :: 1 <= i < |hits| ==> hits[i] == hits[1..][i - 1];
    }
  }

  lemma {:induction false} AnyExists(hits: seq<bool>)
    ensures Any(hits) <==> exists i :: 0 <= i < |hits| && hits[i]
  {
    if |hits| > 0 {
      AnyExists(hits[1..]);
      assert forall i :: 1 <= i < |hits| ==> hits[i] == hits[1..][i - 1];
    }
  }

  /**
   * The aggregate is false for no devices; in mode all it holds exactly when
   * every device matches, in any other mode exactly when some device does.
   */
  lemma CombineMeaning(all: bool, hits: seq<bool>)
    ensures |hits| == 0 ==> !Combine(all, hits)
    ensures all ==> (Combine(all, hits) <==> |hits| > 0 && forall i :: 0 <= i < |hits| ==> hits[i])
    ensures !all ==> (Combine(all, hits) <==> exists i :: 0 <= i < |hits| && hits[i])
  {
    EveryAll(hits);
    AnyExists(hits);
  }

  // ---------------------------------------------------------------- committing a result

  /**
   * `if (newState !== logicState) { logicState = newState; lastFlip = new Date(); }`:
   * the new value is always the committed one afterwards, and `lastFlip`
   * moves (to `now`) only together with a change of `logicState`.
   */
  function Evaluate(c: Committed, v: bool, now: Tick): (r: Committed)
    ensures r.logicState == Some(v)
    ensures r.logicState != c.logicState ==> r.lastFlip == Some(now)
    ensures r.logicState == c.logicState ==> r == c
  {
    if c.logicState == Some(v) then c else Committed(Some(v), Some(now))
  }

  /** A commit that is not counted as a flip (start-up): `lastFlip` is kept. */
  function Settle(c: Committed, v: bool): (r: Committed)
    ensures r.logicState == Some(v) && r.lastFlip == c.lastFlip
  {
    Committed(Some(v), c.lastFlip)
  }

  /** Committing `v` is a change to true: the case in which a notification is due. */
  predicate Rising(c: Committed, v: bool) {
    v && c.logicState != Some(true)
  }

  // ---------------------------------------------------------------- runs of evaluations

  /** The committed result after evaluating each (value, tick) of `evs` in turn. */
  function Run(c: Committed, evs: seq<(bool, Tick)>): Committed
    decreases |evs|
  {
    if |evs| == 0 then c
    else Evaluate(Run(c, evs[..|evs| - 1]), evs[|evs| - 1].0, evs[|evs| - 1].1)
  }

  /** The positions of `evs` at which a notification is due. */
  function Notified(c: Committed, evs: seq<(bool, Tick)>): seq<nat>
    decreases |evs|
  {
    if |evs| == 0 then []
    else
      var n := |evs| - 1;
      Notified(c, evs[..n]) + (if Rising(Run(c, evs[..n]), evs[n].0) then [n] else [])
  }

  /** Reference definition, from the evaluated values alone: the value at i is true and the previous one (or the initial commit) was not. */
  predicate RisesAt(c: Committed, evs: seq<(bool, Tick)>, i: int)
    requires 0 <= i < |evs|
  {
    evs[i].0 && (if i == 0 then c.logicState != Some(true) else !evs[i - 1].0)
  }

  /** Reference definition: the value at i differs from the previous one (or from the initial commit). */
  predicate ChangesAt(c: Committed, evs: seq<(bool, Tick)>, i: int)
    requires 0 <= i < |evs|
  {
    (if i == 0 then c.logicState else Some(evs[i - 1].0)) != Some(evs[i].0)
  }

  /** No evaluation after position i changes the value. */
  predicate LastChange(c: Committed, evs: seq<(bool, Tick)>, i: int)
    requires 0 <= i < |evs|
  {
    forall j :: i < j < |evs| ==> !ChangesAt(c, evs, j)
  }

  /** After a run, the committed value is the last evaluated one. */
  lemma RunCommitsLast(c: Committed, evs: seq<(bool, Tick)>)
    requires |evs| > 0
    ensures Run(c, evs).logicState == Some(evs[|evs| - 1].0)
  {
  }

  /** The state a run commits before its i-th evaluation: the initial one, or the value evaluated at i - 1. */
  lemma RunBefore(c: Committed, evs: seq<(bool, Tick)>, i: nat)
    requires i < |evs|
    ensures Run(c, evs[..i]).logicState == (if i == 0 then c.logicState else Some(evs[i - 1].0))
  {
    if i > 0 {
      RunCommitsLast(c, evs[..i]);
      assert evs[..i][i - 1] == evs[i - 1];
    } else {
      assert evs[..i] == [];
    }
  }

  /** Notifications are due exactly at the rising edges of the evaluated values. */
  lemma {:induction false} NotifiedAreRisingEdges(c: Committed, evs: seq<(bool, Tick)>)
    decreases |evs|
    ensures forall i :: i in Notified(c, evs) <==> 0 <= i < |evs| && RisesAt(c, evs, i)
  {
    if |evs| > 0 {
      var n := |evs| - 1;
      var pre := evs[..n];
      NotifiedAreRisingEdges(c, pre);
      RunBefore(c, evs, n);
      forall i | 0 <= i < n
        ensures RisesAt(c, pre, i) == RisesAt(c, evs, i)
      {
        assert pre[i] == evs[i];
        if i > 0 { assert pre[i - 1] == evs[i - 1]; }
      }
    }
  }

  /** Between two notifications the predicate was false at least once: there is never a notification for a value that was already true. */
  lemma NotificationsSeparated(c: Committed, evs: seq<(bool, Tick)>, i: nat, j: nat)
    requires i in Notified(c, evs) && j in Notified(c, evs) && i < j
    ensures j < |evs| && exists k :: i < k < j && !evs[k].0
  {
    NotifiedAreRisingEdges(c, evs);
    assert RisesAt(c, evs, i) && RisesAt(c, evs, j);
    assert !evs[j - 1].0;
  }

  /** A run in which no evaluation changes the value leaves the committed result, `lastFlip` included, untouched. */
  lemma {:induction false} UnchangedRun(c: Committed, evs: seq<(bool, Tick)>)
    requires forall i :: 0 <= i < |evs| ==> !ChangesAt(c, evs, i)
    decreases |evs|
    ensures Run(c, evs) == c
  {
    if |evs| > 0 {
      var n := |evs| - 1;
      var pre := evs[..n];
      forall i | 0 <= i < n
        ensures !ChangesAt(c, pre, i)
      {
        assert pre[i] == evs[i] && !ChangesAt(c, evs, i);
        if i > 0 { assert pre[i - 1] == evs[i - 1]; }
      }
      UnchangedRun(c, pre);
      RunBefore(c, evs, n);
      assert !ChangesAt(c, evs, n);
    }
  }

  /** `lastFlip` is the tick of the last evaluation that changed the value. */
  lemma {:induction false} LastFlipIsLastChange(c: Committed, evs: seq<(bool, Tick)>, i: nat)
    requires i < |evs| && ChangesAt(c, evs, i) && LastChange(c, evs, i)
    decreases |evs|
    ensures Run(c, evs).lastFlip == Some(evs[i].1)
  {
    var n := |evs| - 1;
    RunBefore(c, evs, n);
    if i < n {
      var pre := evs[..n];
      assert pre[i] == evs[i];
      if i > 0 { assert pre[i - 1] == evs[i - 1]; }
      assert ChangesAt(c, pre, i);
      forall j | i < j < n
        ensures !ChangesAt(c, pre, j)
      {
        assert pre[j] == evs[j] && pre[j - 1] == evs[j - 1] && !ChangesAt(c, evs, j);
      }
      LastFlipIsLastChange(c, pre, i);
      assert !ChangesAt(c, evs, n);
    }
  }
}
