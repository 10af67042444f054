/** The set-list editor of the workout page (src/pages/Workout.tsx): pure
    transformers of the list of sets being logged, and the save path that
    hands a finished session to the store. */
module SetEditor {
  import opened Options
  import opened Types
  import Storage

  /** The values a brand-new set starts from when there is no previous set. */
  const DefaultReps: real := 8.0
  const DefaultWeight: real := 20.0
  const DefaultRpe: real := 8.0

  /** Every set's number is its 1-based position. */
  predicate Numbered(sets: seq<SetEntry>) {
    forall i :: 0 <= i < |sets| ==> sets[i].setNumber == i + 1
  }

  /** Two sets record the same work (reps, weight and RPE), whatever their numbers. */
  predicate SameLoad(a: SetEntry, b: SetEntry) {
    a.reps == b.reps && a.weight == b.weight && a.rpe == b.rpe
  }

  /** A partial set entry: the fields present overwrite, the others stay. */
  datatype Patch = Patch(setNumber: Option<int>, reps: Option<real>, weight: Option<real>, rpe: Option<real>)

  /** The spread `{ ...e, ...p }`. */
  function ApplyPatch(e: SetEntry, p: Patch): (r: SetEntry)
    ensures p.reps.None? ==> r.reps == e.reps
    ensures p.reps.Some? ==> r.reps == p.reps.value
    ensures p.weight.None? ==> r.weight == e.weight
    ensures p.weight.Some? ==> r.weight == p.weight.value
    ensures p.rpe.None? ==> r.rpe == e.rpe
    ensures p.rpe.Some? ==> r.rpe == p.rpe
    ensures p.setNumber.None? ==> r.setNumber == e.setNumber
    ensures p.setNumber.Some? ==> r.setNumber == p.setNumber.value
  {
    SetEntry(
      p.setNumber.GetOr(e.setNumber),
      p.reps.GetOr(e.reps),
      p.weight.GetOr(e.weight),
      if p.rpe.Some? then p.rpe else e.rpe)
  }

  /** `update(index, patch)`: patches the set at `index`; every other set is
      left as it was, and an index outside the list changes nothing. */
  function Update(sets: seq<SetEntry>, index: int, patch: Patch): (r: seq<SetEntry>)
    ensures |r| == |sets|
    ensures forall i :: 0 <= i < |sets| && i != index ==> r[i] == sets[i]
    ensures 0 <= index < |sets| ==> r[index] == ApplyPatch(sets[index], patch)
    ensures !(0 <= index < |sets|) ==> r == sets
  {
    seq(|sets|, i requires 0 <= i < |sets| => if i == index then ApplyPatch(sets[i], patch) else sets[i])
  }

  /** The set the editor appends as number `number`: reps, weight and RPE of
      the last set of `prev`, or the defaults when `prev` is empty; a missing
      RPE becomes the default too. */
  function NextSet(prev: seq<SetEntry>, number: int): SetEntry {
    if |prev| == 0 then SetEntry(number, DefaultReps, DefaultWeight, Some(DefaultRpe))
    else
      var last := prev[|prev| - 1];
      SetEntry(number, last.reps, last.weight, Some(last.rpe.GetOr(DefaultRpe)))
  }

  /** `addSet()`: appends one set that repeats the last one. */
  function AddSet(sets: seq<SetEntry>): (r: seq<SetEntry>)
    ensures |r| == |sets| + 1 && r[..|sets|] == sets
    ensures r[|sets|].setNumber == |sets| + 1
    ensures |sets| == 0 ==> r[0].reps == 8.0 && r[0].weight == 20.0 && r[0].rpe == Some(8.0)
    ensures |sets| > 0 ==>
      && r[|sets|].reps == sets[|sets| - 1].reps
      && r[|sets|].weight == sets[|sets| - 1].weight
      && r[|sets|].rpe == Some(sets[|sets| - 1].rpe.GetOr(8.0))
    ensures Numbered(sets) ==> Numbered(r)
  {
    sets + [NextSet(sets, |sets| + 1)]
  }

  /** `quickAdd(n)`: appends `n` copies of the set `addSet` would add (none
      when `n` is not positive), numbered on from the end of the list. */
  method QuickAdd(sets: seq<SetEntry>, n: int) returns (r: seq<SetEntry>)
    ensures |r| == |sets| + (if n > 0 then n else 0)
    ensures r[..|sets|] == sets
    ensures forall k :: |sets| <= k < |r| ==>
      r[k].setNumber == k + 1 && SameLoad(r[k], AddSet(sets)[|sets|])
    ensures n == 1 ==> r == AddSet(sets)
    ensures Numbered(sets) ==> Numbered(r)
  {
    r := sets;
    var i := 0;
    while i < n
      invariant 0 <= i && (n > 0 ==> i <= n) && (n <= 0 ==> i == 0)
      invariant |r| == |sets| + i
      invariant r[..|sets|] == sets
      invariant forall k :: |sets| <= k < |r| ==> r[k] == NextSet(sets, k + 1)
    {
      r := r + [NextSet(sets, |r| + 1)];
      i := i + 1;
    }
  }

  /** Gives every set its 1-based position as number, keeping its load. */
  function Renumber(sets: seq<SetEntry>): (r: seq<SetEntry>)
    ensures |r| == |sets| && Numbered(r)
    ensures forall i :: 0 <= i < |sets| ==> SameLoad(r[i], sets[i])
    ensures Numbered(sets) ==> r == sets
  {
    seq(|sets|, i requires 0 <= i < |sets| => sets[i].(setNumber := i + 1))
  }

  /** Drops the set at `index`, if there is one (the filter on positions). */
  function RemoveAt(sets: seq<SetEntry>, index: int): (r: seq<SetEntry>)
    ensures |r| == if 0 <= index < |sets| then |sets| - 1 else |sets|
    ensures forall i :: 0 <= i < |r| ==> r[i] == sets[if 0 <= index <= i then i + 1 else i]
  {
    if 0 <= index < |sets| then sets[..index] + sets[index + 1..] else sets
  }

  /** `remove(index)`: drops the set at `index` and renumbers the rest. */
  function Remove(sets: seq<SetEntry>, index: int): (r: seq<SetEntry>)
    ensures |r| == if 0 <= index < |sets| then |sets| - 1 else |sets|
    ensures Numbered(r)
    ensures forall i :: 0 <= i < |r| ==> SameLoad(r[i], sets[if 0 <= index <= i then i + 1 else i])
  {
    Renumber(RemoveAt(sets, index))
  }

  /** The `useState` initial value of the set list: a copy of the sets of the
      newest session in `history`, or a single default set (without RPE) when
      there is none. `history` is the history as available at the page's first
      render: React uses this value only at mount, so a visit whose history is
      still loading starts from the default set, and the list is not reseeded
      when the history arrives. */
  function InitialSets(history: Option<seq<Session>>): (r: seq<SetEntry>)
    ensures history.None? || history.value == [] ==> r == [SetEntry(1, 8.0, 20.0, None)]
    ensures history.Some? && history.value != [] ==> r == history.value[|history.value| - 1].sets
  {
    if history.Some? && history.value != [] then history.value[|history.value| - 1].sets
    else [SetEntry(1, DefaultReps, DefaultWeight, None)]
  }

  /** The session the Save button submits: the sets renumbered by position. */
  function SaveDraft(workoutTypeId: Id, date: string, notes: string, sets: seq<SetEntry>): (d: SessionDraft)
    ensures d.workoutTypeId == workoutTypeId && d.date == date && d.notes == Some(notes)
    ensures |d.sets| == |sets| && Numbered(d.sets)
    ensures forall i :: 0 <= i < |sets| ==> SameLoad(d.sets[i], sets[i])
  {
    SessionDraft(workoutTypeId, date, Some(notes), Renumber(sets))
  }

  // ----- properties relating several operations -----

  /** The editor only patches reps, weight or RPE, and such an edit keeps the
      numbering intact. */
  lemma UpdateKeepsNumbering(sets: seq<SetEntry>, index: int, patch: Patch)
    requires Numbered(sets) && patch.setNumber.None?
    ensures Numbered(Update(sets, index, patch))
  {
  }

  /** Removing the set just added restores a numbered list exactly. */
  lemma RemoveUndoesAddSet(sets: seq<SetEntry>)
    requires Numbered(sets)
    ensures Remove(AddSet(sets), |sets|) == sets
  {
  }

  /** Removing at an index outside the list only renumbers, which leaves a
      numbered list as it is. */
  lemma RemoveOutOfRange(sets: seq<SetEntry>, index: int)
    requires !(0 <= index < |sets|)
    ensures Remove(sets, index) == Renumber(sets)
    ensures Numbered(sets) ==> Remove(sets, index) == sets
  {
  }

  /** When every session in the history was saved numbered, so is the list
      the editor starts from. */
  lemma InitialSetsNumbered(history: Option<seq<Session>>)
    requires history.Some? ==> forall s :: s in history.value ==> Numbered(s.sets)
    ensures Numbered(InitialSets(history))
  {
  }

  /** Saving stores a session whose sets are numbered by position and carry
      the logged loads in order, and the session joins its workout's history. */
  lemma SavedSessionIsNumbered(st: Storage.Store, workoutTypeId: Id, date: string, notes: string,
                               sets: seq<SetEntry>, id: Id)
    ensures var after := Storage.AddSession(st, SaveDraft(workoutTypeId, date, notes, sets), id);
      && Numbered(after.item.sets)
      && |after.item.sets| == |sets|
      && (forall i :: 0 <= i < |sets| ==> SameLoad(after.item.sets[i], sets[i]))
      && Storage.GetSessions(after.store)[|Storage.GetSessions(after.store)| - 1] == after.item
      && after.item in Storage.GetSessionsByWorkout(after.store, workoutTypeId)
  {
  }
}
