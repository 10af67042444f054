/** The persisted entities of the gym tracker (src/type.ts). */
module Types {
  import opened Options

  /** An opaque identifier produced by the uuid generator. */
  type Id = string

  /** The display unit; it never converts stored weights. */
  datatype Unit = Kg | Lb

  datatype Settings = Settings(unit: Unit)

  datatype MuscleGroup = MuscleGroup(id: Id, name: string, imageUrl: string)

  /** An exercise; `muscleGroupId` is a reference nobody checks. */
  datatype WorkoutType = WorkoutType(id: Id, muscleGroupId: Id, name: string)

  /** One logged set. Reps, weight and RPE come from number inputs that accept
      fractions, so they are modelled as reals; `rpe` is optional. */
  datatype SetEntry = SetEntry(setNumber: int, reps: real, weight: real, rpe: Option<real>)

  /** A dated training session; `date` is an ISO `YYYY-MM-DD` string. */
  datatype Session = Session(id: Id, workoutTypeId: Id, date: string, notes: Option<string>, sets: seq<SetEntry>)

  /** A session before the store has given it an id (`Omit<Session, "id">`). */
  datatype SessionDraft = SessionDraft(workoutTypeId: Id, date: string, notes: Option<string>, sets: seq<SetEntry>) {

    /** The session `{ id, ...draft }`. */
    function WithId(id: Id): Session {
      Session(id, workoutTypeId, date, notes, sets)
    }
  }
}
