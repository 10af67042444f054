/** The local store (src/storage.ts): four independently persisted slots and
    the accessors over them. Persistence is modelled as a value of `Store`;
    every writer returns the next store. The uuid generator is an oracle whose
    ids are passed in as parameters. */
module Storage {
  import opened Options
  import opened Seqs
  import opened Types
  import opened SessionOrder

  /** What a storage slot yields: nothing (missing or empty text), text that
      does not parse, or a parsed value. */
  datatype Slot<T> = Absent | Corrupt | Present(value: T)

  /** Reads a slot, degrading to `fallback` instead of failing. */
  function Read<T>(slot: Slot<T>, fallback: T): (r: T)
    ensures slot.Present? ==> r == slot.value
    ensures !slot.Present? ==> r == fallback
  {
    match slot
    case Present(v) => v
    case _ => fallback
  }

  datatype Store = Store(
    muscleGroups: Slot<seq<MuscleGroup>>,
    workoutTypes: Slot<seq<WorkoutType>>,
    sessions: Slot<seq<Session>>,
    settings: Slot<Settings>)

  /** A writer's result: the store after the write and the entity it created. */
  datatype Added<T> = Added(store: Store, item: T)

  const DefaultSettings := Settings(Kg)

  /** The six muscle groups seeded on first start, with their images. */
  const SeedNames: seq<string> := ["Chest", "Triceps", "Shoulders", "Biceps", "Back", "Legs"]
  const SeedImages: seq<string> := [
    "/assets/chest.jpg", "/assets/triceps.jpg", "/assets/shoulder.jpg",
    "/assets/biceps.jpg", "/assets/back.jpg", "/assets/legs.jpg"]

  /** The ids of a collection, in order. */
  function GroupIds(gs: seq<MuscleGroup>): seq<Id> {
    Map(gs, (g: MuscleGroup) => g.id)
  }

  function GroupNames(gs: seq<MuscleGroup>): seq<string> {
    Map(gs, (g: MuscleGroup) => g.name)
  }

  function TypeIds(ws: seq<WorkoutType>): seq<Id> {
    Map(ws, (w: WorkoutType) => w.id)
  }

  function SessionIds(ss: seq<Session>): seq<Id> {
    Map(ss, (s: Session) => s.id)
  }

  // ----- reads -----

  /** The stored groups; a missing or corrupt slot reads as no groups. */
  function GetMuscleGroups(st: Store): (r: seq<MuscleGroup>)
    ensures !st.muscleGroups.Present? ==> r == []
  {
    Read(st.muscleGroups, [])
  }

  function GetWorkoutTypes(st: Store): (r: seq<WorkoutType>)
    ensures !st.workoutTypes.Present? ==> r == []
  {
    Read(st.workoutTypes, [])
  }

  function GetSessions(st: Store): (r: seq<Session>)
    ensures !st.sessions.Present? ==> r == []
  {
    Read(st.sessions, [])
  }

  /** The stored settings; before any write they read as `{unit: kg}`. */
  function GetSettings(st: Store): (r: Settings)
    ensures !st.settings.Present? ==> r == Settings(Kg)
  {
    Read(st.settings, DefaultSettings)
  }

  /** The first muscle group with the given id, or none. */
  function GetMuscleGroup(st: Store, id: Id): (r: Option<MuscleGroup>)
    ensures r.None? <==> id !in GroupIds(GetMuscleGroups(st))
    ensures r.Some? ==> r.value.id == id
    ensures r.Some? ==> (exists k :: 0 <= k < |GetMuscleGroups(st)| && GetMuscleGroups(st)[k] == r.value
                                     && forall j :: 0 <= j < k ==> GetMuscleGroups(st)[j].id != id)
  {
    var gs := GetMuscleGroups(st);
    match FirstMatch(gs, (g: MuscleGroup) => g.id == id)
    case Some(k) => Some(gs[k])
    case None => None
  }

  /** Selects the workout types filed under muscle group `g`. */
  function InGroup(g: Id): WorkoutType -> bool {
    (w: WorkoutType) => w.muscleGroupId == g
  }

  function GetWorkoutTypesByMuscle(st: Store, g: Id): (r: seq<WorkoutType>)
    ensures forall w :: w in r <==> w in GetWorkoutTypes(st) && w.muscleGroupId == g
    ensures forall w :: multiset(r)[w] == if w.muscleGroupId == g then multiset(GetWorkoutTypes(st))[w] else 0
    ensures IsSubsequence(r, GetWorkoutTypes(st))
  {
    var ws := GetWorkoutTypes(st);
    FilterMembers(ws, InGroup(g));
    FilterCount(ws, InGroup(g));
    FilterIsSubsequence(ws, InGroup(g));
    Filter(ws, InGroup(g))
  }

  /** Selects the sessions logged against workout type `w`. */
  function ForWorkout(w: Id): Session -> bool {
    (s: Session) => s.workoutTypeId == w
  }

  /** A workout's history: its sessions, oldest date first, ties kept in
      insertion order. */
  function GetSessionsByWorkout(st: Store, w: Id): (r: seq<Session>)
    ensures forall s :: s in r <==> s in GetSessions(st) && s.workoutTypeId == w
    ensures multiset(r) == multiset(Filter(GetSessions(st), ForWorkout(w)))
    ensures SortedByDate(r)
    ensures forall d :: Filter(r, OnDate(d)) == Filter(Filter(GetSessions(st), ForWorkout(w)), OnDate(d))
  {
    HistoryFacts(GetSessions(st), w);
    SortByDate(Filter(GetSessions(st), ForWorkout(w)))
  }

  lemma HistoryFacts(all: seq<Session>, w: Id)
    ensures var r := SortByDate(Filter(all, ForWorkout(w)));
      && (forall s :: s in r <==> s in all && s.workoutTypeId == w)
      && multiset(r) == multiset(Filter(all, ForWorkout(w)))
      && SortedByDate(r)
      && forall d :: Filter(r, OnDate(d)) == Filter(Filter(all, ForWorkout(w)), OnDate(d))
  {
    var mine := Filter(all, ForWorkout(w));
    var r := SortByDate(mine);
    FilterMembers(all, ForWorkout(w));
    SortPermutes(mine);
    forall s
      ensures s in r <==> s in all && s.workoutTypeId == w
    {
      assert s in r <==> s in multiset(r);
      assert s in mine <==> s in multiset(mine);
    }
    SortSorted(mine);
    SortStable(mine);
  }

  // ----- writes -----

  /** The seed list, given six ids from the generator. */
  function Seed(ids: seq<Id>): (r: seq<MuscleGroup>)
    requires |ids| == 6
    ensures GroupIds(r) == ids
  {
    seq(6, i requires 0 <= i < 6 => MuscleGroup(ids[i], SeedNames[i], SeedImages[i]))
  }

  /** First-start initialisation: seeds the muscle groups when their list reads
      as empty and rewrites the settings slot with what it reads as. */
  function InitDefaults(st: Store, ids: seq<Id>): (r: Store)
    requires |ids| == 6 && Distinct(ids)
    ensures GetMuscleGroups(st) == [] ==>
      && |GetMuscleGroups(r)| == 6
      && GroupNames(GetMuscleGroups(r)) == ["Chest", "Triceps", "Shoulders", "Biceps", "Back", "Legs"]
      && Distinct(GroupIds(GetMuscleGroups(r)))
      && forall g :: g in GetMuscleGroups(r) ==> g.imageUrl != ""
    ensures GetMuscleGroups(st) != [] ==> r.muscleGroups == st.muscleGroups
    ensures r.settings.Present?
    ensures st.settings.Present? ==> GetSettings(r) == st.settings.value
    ensures !st.settings.Present? ==> GetSettings(r) == Settings(Kg)
    ensures r.workoutTypes == st.workoutTypes && r.sessions == st.sessions
  {
    var groups := if GetMuscleGroups(st) == [] then Present(Seed(ids)) else st.muscleGroups;
    st.(muscleGroups := groups, settings := Present(GetSettings(st)))
  }

  function AddMuscleGroup(st: Store, name: string, id: Id): (r: Added<MuscleGroup>)
    ensures r.item.id == id && r.item.name == name && r.item.imageUrl == ""
    ensures GetMuscleGroups(r.store) == GetMuscleGroups(st) + [r.item]
    ensures r.store.workoutTypes == st.workoutTypes && r.store.sessions == st.sessions
    ensures r.store.settings == st.settings
  {
    var item := MuscleGroup(id, name, "");
    Added(st.(muscleGroups := Present(GetMuscleGroups(st) + [item])), item)
  }

  /** Adds a workout type without checking that group `g` exists. */
  function AddWorkoutType(st: Store, g: Id, name: string, id: Id): (r: Added<WorkoutType>)
    ensures r.item.id == id && r.item.muscleGroupId == g && r.item.name == name
    ensures GetWorkoutTypes(r.store) == GetWorkoutTypes(st) + [r.item]
    ensures r.store.muscleGroups == st.muscleGroups && r.store.sessions == st.sessions
    ensures r.store.settings == st.settings
  {
    var item := WorkoutType(id, g, name);
    Added(st.(workoutTypes := Present(GetWorkoutTypes(st) + [item])), item)
  }

  /** Stores `{ id, ...draft }`; the sets are stored exactly as given. */
  function AddSession(st: Store, draft: SessionDraft, id: Id): (r: Added<Session>)
    ensures r.item.id == id && r.item.workoutTypeId == draft.workoutTypeId
    ensures r.item.date == draft.date && r.item.notes == draft.notes && r.item.sets == draft.sets
    ensures GetSessions(r.store) == GetSessions(st) + [r.item]
    ensures r.store.muscleGroups == st.muscleGroups && r.store.workoutTypes == st.workoutTypes
    ensures r.store.settings == st.settings
  {
    var item := draft.WithId(id);
    Added(st.(sessions := Present(GetSessions(st) + [item])), item)
  }

  /** Replaces the settings wholesale. */
  function SetSettings(st: Store, s: Settings): (r: Store)
    ensures GetSettings(r) == s
    ensures r.muscleGroups == st.muscleGroups && r.workoutTypes == st.workoutTypes
    ensures r.sessions == st.sessions
  {
    st.(settings := Present(s))
  }

  // ----- properties relating several calls -----

  /** A second initialisation changes nothing: no duplicate seeds, and the
      settings written the first time are read back unchanged. */
  lemma InitDefaultsIdempotent(st: Store, ids: seq<Id>, ids': seq<Id>)
    requires |ids| == 6 && Distinct(ids)
    requires |ids'| == 6 && Distinct(ids')
    ensures InitDefaults(InitDefaults(st, ids), ids') == InitDefaults(st, ids)
  {
  }

  /** With a fresh id from the generator, the new group is what a lookup by
      that id finds, and group ids stay pairwise distinct. */
  lemma AddMuscleGroupFresh(st: Store, name: string, id: Id)
    requires id !in GroupIds(GetMuscleGroups(st))
    ensures GetMuscleGroup(AddMuscleGroup(st, name, id).store, id) == Some(AddMuscleGroup(st, name, id).item)
    ensures Distinct(GroupIds(GetMuscleGroups(st))) ==>
      Distinct(GroupIds(GetMuscleGroups(AddMuscleGroup(st, name, id).store)))
  {
    var r := AddMuscleGroup(st, name, id);
    var gs := GetMuscleGroups(st);
    assert GroupIds(gs + [r.item]) == GroupIds(gs) + [id];
    if Distinct(GroupIds(gs)) {
      DistinctAppend(GroupIds(gs), id);
    }
  }

  /** With a fresh id, workout type ids stay pairwise distinct. */
  lemma AddWorkoutTypeFresh(st: Store, g: Id, name: string, id: Id)
    requires id !in TypeIds(GetWorkoutTypes(st))
    ensures Distinct(TypeIds(GetWorkoutTypes(st))) ==>
      Distinct(TypeIds(GetWorkoutTypes(AddWorkoutType(st, g, name, id).store)))
  {
    var r := AddWorkoutType(st, g, name, id);
    assert TypeIds(GetWorkoutTypes(st) + [r.item]) == TypeIds(GetWorkoutTypes(st)) + [id];
    if Distinct(TypeIds(GetWorkoutTypes(st))) {
      DistinctAppend(TypeIds(GetWorkoutTypes(st)), id);
    }
  }

  /** A new workout type shows up at the end of its own group's list and
      nowhere else, whether or not the group exists. */
  lemma AddWorkoutTypeFiling(st: Store, g: Id, name: string, id: Id, h: Id)
    ensures GetWorkoutTypesByMuscle(AddWorkoutType(st, g, name, id).store, h)
         == GetWorkoutTypesByMuscle(st, h) + (if h == g then [AddWorkoutType(st, g, name, id).item] else [])
  {
    var r := AddWorkoutType(st, g, name, id);
    FilterSnoc(GetWorkoutTypes(st), r.item, InGroup(h));
  }

  /** With a fresh id, session ids stay pairwise distinct. */
  lemma AddSessionFresh(st: Store, draft: SessionDraft, id: Id)
    requires id !in SessionIds(GetSessions(st))
    ensures Distinct(SessionIds(GetSessions(st))) ==>
      Distinct(SessionIds(GetSessions(AddSession(st, draft, id).store)))
  {
    var r := AddSession(st, draft, id);
    assert SessionIds(GetSessions(st) + [r.item]) == SessionIds(GetSessions(st)) + [id];
    if Distinct(SessionIds(GetSessions(st))) {
      DistinctAppend(SessionIds(GetSessions(st)), id);
    }
  }

  /** A new session leaves every other workout's history alone; in its own
      workout's history it lands after every session dated no later and before
      every session dated strictly later. */
  lemma AddSessionHistory(st: Store, draft: SessionDraft, id: Id, w: Id) returns (k: int)
    ensures w != draft.workoutTypeId ==>
      GetSessionsByWorkout(AddSession(st, draft, id).store, w) == GetSessionsByWorkout(st, w)
    ensures w == draft.workoutTypeId ==>
      PlacedAt(GetSessionsByWorkout(st, w), AddSession(st, draft, id).item, k,
               GetSessionsByWorkout(AddSession(st, draft, id).store, w))
  {
    var r := AddSession(st, draft, id);
    var all := GetSessions(st);
    FilterAppend(all, [r.item], ForWorkout(w));
    assert [r.item][1..] == [];
    var mine := Filter(all, ForWorkout(w));
    if w == draft.workoutTypeId {
      assert Filter(all + [r.item], ForWorkout(w)) == mine + [r.item];
      assert (mine + [r.item])[..|mine|] == mine;
      SortSorted(mine);
      k := InsertPosition(SortByDate(mine), r.item);
    } else {
      assert Filter([r.item], ForWorkout(w)) == [];
      assert Filter(all + [r.item], ForWorkout(w)) == mine;
      k := 0;
    }
  }
}
