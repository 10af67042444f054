/** The statistics the workout page derives from a workout's history
    (src/pages/Workout.tsx): top set per session, personal best, total sets
    and total reps. Each is a left fold, as the source's `reduce` and
    `forEach` are. */
module Stats {
  import opened Options
  import opened Types
  import SetEditor
  import Storage

  function Max(a: real, b: real): real {
    if a >= b then a else b
  }

  /** Folds `Math.max` over the weights of `sets`, starting from `acc`. */
  function FoldMax(acc: real, sets: seq<SetEntry>): (r: real)
    ensures r >= acc
    ensures forall i :: 0 <= i < |sets| ==> r >= sets[i].weight
    ensures r == acc || exists i :: 0 <= i < |sets| && r == sets[i].weight
    decreases |sets|
  {
    if |sets| == 0 then acc
    else
      var r := FoldMax(Max(acc, sets[0].weight), sets[1..]);
      assert forall i :: 1 <= i < |sets| ==> sets[i].weight == sets[1..][i - 1].weight;
      r
  }

  /** `maxSetWeight(s)`: the heaviest set of a session, and 0 for none. */
  function MaxSetWeight(s: Session): (r: real)
    ensures r >= 0.0
    ensures forall i :: 0 <= i < |s.sets| ==> r >= s.sets[i].weight
    ensures r == 0.0 || exists i :: 0 <= i < |s.sets| && r == s.sets[i].weight
    ensures |s.sets| == 0 ==> r == 0.0
  {
    FoldMax(0.0, s.sets)
  }

  /** The `forEach` loop behind `best`: the running maximum carried through
      every set of every session. */
  function BestFold(acc: real, sessions: seq<Session>): (r: real)
    ensures r >= acc
    decreases |sessions|
  {
    if |sessions| == 0 then acc else BestFold(FoldMax(acc, sessions[0].sets), sessions[1..])
  }

  /** `best`: absent while the history is loading, otherwise the heaviest
      weight logged for the workout, 0 when nothing is logged. */
  function Best(history: Option<seq<Session>>): (r: Option<real>)
    ensures r.None? <==> history.None?
    ensures r.Some? ==> r.value >= 0.0
  {
    match history
    case None => None
    case Some(ss) => Some(BestFold(0.0, ss))
  }

  /** Every set of every session, session by session. */
  function AllSets(sessions: seq<Session>): seq<SetEntry>
    decreases |sessions|
  {
    if |sessions| == 0 then [] else sessions[0].sets + AllSets(sessions[1..])
  }

  /** No set has negative reps (the reps input has `min={1}`, which the
      browser does not enforce on typed values). */
  predicate NonNegativeReps(sets: seq<SetEntry>) {
    forall i :: 0 <= i < |sets| ==> sets[i].reps >= 0.0
  }

  /** The sum of the reps of `sets`. */
  function SumReps(sets: seq<SetEntry>): real
    decreases |sets|
  {
    if |sets| == 0 then 0.0 else sets[0].reps + SumReps(sets[1..])
  }

  /** `reduce((total, s) => total + s.sets.length, acc)`. */
  function FoldSetCount(acc: int, sessions: seq<Session>): (r: int)
    ensures r >= acc
    decreases |sessions|
  {
    if |sessions| == 0 then acc else FoldSetCount(acc + |sessions[0].sets|, sessions[1..])
  }

  /** `reduce((sum, set) => sum + set.reps, acc)`. */
  function FoldReps(acc: real, sets: seq<SetEntry>): (r: real)
    ensures NonNegativeReps(sets) ==> r >= acc
    decreases |sets|
  {
    if |sets| == 0 then acc else FoldReps(acc + sets[0].reps, sets[1..])
  }

  /** The outer `reduce` of total reps: adds each session's inner fold. */
  function FoldTotalReps(acc: real, sessions: seq<Session>): (r: real)
    ensures (forall s :: s in sessions ==> NonNegativeReps(s.sets)) ==> r >= acc
    decreases |sessions|
  {
    if |sessions| == 0 then acc else FoldTotalReps(acc + FoldReps(0.0, sessions[0].sets), sessions[1..])
  }

  function TotalSets(sessions: seq<Session>): (r: int)
    ensures r >= 0
  {
    FoldSetCount(0, sessions)
  }

  function TotalReps(sessions: seq<Session>): (r: real)
    ensures (forall s :: s in sessions ==> NonNegativeReps(s.sets)) ==> r >= 0.0
  {
    FoldTotalReps(0.0, sessions)
  }

  // ----- the folds against their reference definitions -----

  /** Folding over a concatenation is folding over the second part from where
      the first left off. */
  lemma {:induction false} FoldMaxAppend(acc: real, a: seq<SetEntry>, b: seq<SetEntry>)
    ensures FoldMax(acc, a + b) == FoldMax(FoldMax(acc, a), b)
    decreases |a|
  {
    if |a| > 0 {
      assert (a + b)[0] == a[0] && (a + b)[1..] == a[1..] + b;
      FoldMaxAppend(Max(acc, a[0].weight), a[1..], b);
    } else {
      assert a + b == b;
    }
  }

  lemma {:induction false} BestFoldIsFoldMax(acc: real, sessions: seq<Session>)
    ensures BestFold(acc, sessions) == FoldMax(acc, AllSets(sessions))
    decreases |sessions|
  {
    if |sessions| > 0 {
      BestFoldIsFoldMax(FoldMax(acc, sessions[0].sets), sessions[1..]);
      FoldMaxAppend(acc, sessions[0].sets, AllSets(sessions[1..]));
    }
  }

  /** `best` is the maximum of 0 and every weight in the history: it bounds
      every set of every session and is either 0 or one of those weights. */
  lemma BestIsOverallMax(sessions: seq<Session>)
    ensures Best(Some(sessions)) == Some(FoldMax(0.0, AllSets(sessions)))
    ensures var b := Best(Some(sessions)).value;
      && b >= 0.0
      && (forall s, i :: s in sessions && 0 <= i < |s.sets| ==> b >= s.sets[i].weight)
      && (b == 0.0 || exists s, i :: s in sessions && 0 <= i < |s.sets| && b == s.sets[i].weight)
  {
    BestFoldIsFoldMax(0.0, sessions);
    var b := FoldMax(0.0, AllSets(sessions));
    forall s, i | s in sessions && 0 <= i < |s.sets|
      ensures b >= s.sets[i].weight
    {
      AllSetsContains(sessions, s, i);
    }
    if b != 0.0 {
      var j :| 0 <= j < |AllSets(sessions)| && b == AllSets(sessions)[j].weight;
      var s, i := AllSetsLocate(sessions, j);
    }
  }

  /** `best` is also the largest top set of the history. */
  lemma BestIsLargestTopSet(sessions: seq<Session>)
    ensures var b := Best(Some(sessions)).value;
      && (forall s :: s in sessions ==> b >= MaxSetWeight(s))
      && (b == 0.0 || exists s :: s in sessions && b == MaxSetWeight(s))
  {
    BestIsOverallMax(sessions);
    var b := Best(Some(sessions)).value;
    if b != 0.0 {
      var s, i :| s in sessions && 0 <= i < |s.sets| && b == s.sets[i].weight;
      assert MaxSetWeight(s) >= b;
    }
  }

  lemma {:induction false} AllSetsContains(sessions: seq<Session>, s: Session, i: int)
    requires s in sessions && 0 <= i < |s.sets|
    ensures s.sets[i] in AllSets(sessions)
    decreases |sessions|
  {
    if sessions[0] != s {
      AllSetsContains(sessions[1..], s, i);
    }
  }

  lemma {:induction false} AllSetsLocate(sessions: seq<Session>, j: int) returns (s: Session, i: int)
    requires 0 <= j < |AllSets(sessions)|
    ensures s in sessions && 0 <= i < |s.sets| && s.sets[i] == AllSets(sessions)[j]
    decreases |sessions|
  {
    if j < |sessions[0].sets| {
      s, i := sessions[0], j;
    } else {
      s, i := AllSetsLocate(sessions[1..], j - |sessions[0].sets|);
    }
  }

  lemma {:induction false} FoldSetCountIsLength(acc: int, sessions: seq<Session>)
    ensures FoldSetCount(acc, sessions) == acc + |AllSets(sessions)|
    decreases |sessions|
  {
    if |sessions| > 0 {
      FoldSetCountIsLength(acc + |sessions[0].sets|, sessions[1..]);
    }
  }

  /** Total sets counts every set of every session; it is 0 for no sessions. */
  lemma TotalSetsCountsAllSets(sessions: seq<Session>)
    ensures TotalSets(sessions) == |AllSets(sessions)|
    ensures sessions == [] ==> TotalSets(sessions) == 0
  {
    FoldSetCountIsLength(0, sessions);
  }

  lemma {:induction false} SumRepsAppend(a: seq<SetEntry>, b: seq<SetEntry>)
    ensures SumReps(a + b) == SumReps(a) + SumReps(b)
    decreases |a|
  {
    if |a| > 0 {
      assert (a + b)[0] == a[0] && (a + b)[1..] == a[1..] + b;
      SumRepsAppend(a[1..], b);
    } else {
      assert a + b == b;
    }
  }

  lemma {:induction false} FoldRepsIsSum(acc: real, sets: seq<SetEntry>)
    ensures FoldReps(acc, sets) == acc + SumReps(sets)
    decreases |sets|
  {
    if |sets| > 0 {
      FoldRepsIsSum(acc + sets[0].reps, sets[1..]);
    }
  }

  lemma {:induction false} FoldTotalRepsIsSum(acc: real, sessions: seq<Session>)
    ensures FoldTotalReps(acc, sessions) == acc + SumReps(AllSets(sessions))
    decreases |sessions|
  {
    if |sessions| > 0 {
      var first, rest := sessions[0].sets, sessions[1..];
      calc {
        FoldTotalReps(acc, sessions);
        FoldTotalReps(acc + FoldReps(0.0, first), rest);
      == { FoldTotalRepsIsSum(acc + FoldReps(0.0, first), rest); }
        acc + FoldReps(0.0, first) + SumReps(AllSets(rest));
      == { FoldRepsIsSum(0.0, first); }
        acc + SumReps(first) + SumReps(AllSets(rest));
      == { SumRepsAppend(first, AllSets(rest)); }
        acc + SumReps(first + AllSets(rest));
        acc + SumReps(AllSets(sessions));
      }
    }
  }

  /** Total reps adds the reps of every set of every session; it is 0 for no
      sessions. */
  lemma TotalRepsSumsAllReps(sessions: seq<Session>)
    ensures TotalReps(sessions) == SumReps(AllSets(sessions))
    ensures sessions == [] ==> TotalReps(sessions) == 0.0
  {
    FoldTotalRepsIsSum(0.0, sessions);
  }

  lemma {:induction false} AllSetsAppend(a: seq<Session>, b: seq<Session>)
    ensures AllSets(a + b) == AllSets(a) + AllSets(b)
    decreases |a|
  {
    if |a| > 0 {
      assert (a + b)[0] == a[0] && (a + b)[1..] == a[1..] + b;
      AllSetsAppend(a[1..], b);
    } else {
      assert a + b == b;
    }
  }

  /** Inserting one session anywhere in a history adds exactly its sets and
      its reps to the totals. */
  lemma TotalsAfterInsert(before: seq<Session>, x: Session, k: int, after: seq<Session>)
    requires 0 <= k <= |before| && after == before[..k] + [x] + before[k..]
    ensures TotalSets(after) == TotalSets(before) + |x.sets|
    ensures TotalReps(after) == TotalReps(before) + SumReps(x.sets)
  {
    var lo, hi := before[..k], before[k..];
    assert before == lo + hi;
    assert after == lo + ([x] + hi);
    AllSetsAppend(lo, hi);
    AllSetsAppend(lo, [x] + hi);
    AllSetsAppend([x], hi);
    assert AllSets([x]) == x.sets by {
      assert [x][1..] == [];
    }
    SumRepsAppend(AllSets(lo), AllSets(hi));
    SumRepsAppend(AllSets(lo), x.sets + AllSets(hi));
    SumRepsAppend(x.sets, AllSets(hi));
    TotalSetsCountsAllSets(before);
    TotalSetsCountsAllSets(after);
    TotalRepsSumsAllReps(before);
    TotalRepsSumsAllReps(after);
  }

  /** Saving a session adds exactly its sets and its reps to the totals shown
      for its workout, wherever its date places it in the history. */
  lemma SaveAddsToTotals(st: Storage.Store, workoutTypeId: Id, date: string, notes: string,
                         sets: seq<SetEntry>, id: Id)
    ensures var after := Storage.AddSession(st, SetEditor.SaveDraft(workoutTypeId, date, notes, sets), id).store;
      && TotalSets(Storage.GetSessionsByWorkout(after, workoutTypeId))
         == TotalSets(Storage.GetSessionsByWorkout(st, workoutTypeId)) + |sets|
      && TotalReps(Storage.GetSessionsByWorkout(after, workoutTypeId))
         == TotalReps(Storage.GetSessionsByWorkout(st, workoutTypeId)) + SumReps(sets)
  {
    var draft := SetEditor.SaveDraft(workoutTypeId, date, notes, sets);
    var added := Storage.AddSession(st, draft, id);
    var k := Storage.AddSessionHistory(st, draft, id, workoutTypeId);
    TotalsAfterInsert(Storage.GetSessionsByWorkout(st, workoutTypeId), added.item, k,
                      Storage.GetSessionsByWorkout(added.store, workoutTypeId));
    SumRepsSameLoad(added.item.sets, sets);
  }

  /** Renumbering does not change the reps of a list of sets. */
  lemma {:induction false} SumRepsSameLoad(a: seq<SetEntry>, b: seq<SetEntry>)
    requires |a| == |b| && forall i :: 0 <= i < |a| ==> SetEditor.SameLoad(a[i], b[i])
    ensures SumReps(a) == SumReps(b)
    decreases |a|
  {
    if |a| > 0 {
      SumRepsSameLoad(a[1..], b[1..]);
    }
  }
}
