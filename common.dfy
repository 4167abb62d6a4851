/** Values shared by every controller of the model. */
module Common {

  /** A C# reference that may be null, or a value that may be absent. */
  datatype Option<T> = None | Some(value: T)

  /**
   * What a MonoBehaviour's `Coroutine` field holds: null, or the handle that
   * `StartCoroutine` returned for the routine numbered `id`. A handle can
   * outlive its routine (a stale handle): it stays non-null until code
   * assigns `null` to the field.
   */
  datatype Handle = Null | Routine(id: nat)

  /** A `UnityEngine.Vector2`, with its float components taken as reals. */
  datatype Vec2 = Vec2(x: real, y: real)

  const Zero2: Vec2 := Vec2(0.0, 0.0)
}
