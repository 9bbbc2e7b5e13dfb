/** Small datatypes shared by every component of the model. */
module Prelude {

  datatype Option<+T> = None | Some(value: T)

  datatype Result<+T, +E> = Ok(value: T) | Err(error: E)

  /** What one durable write (write temporary file, rename, sync directory) or one
      durable removal (unlink, sync directory) can do. `Unsynced` took effect in the
      live directory but reported an error: only a later power loss can undo it. */
  datatype Write = NotDone | Unsynced | Done

  /** Decimal notation. */
  function Decimal(n: nat): string {
    if n < 10 then [('0' as int + n) as char] else Decimal(n / 10) + [('0' as int + n % 10) as char]
  }

  lemma {:induction false} SubsetSize<T>(a: set<T>, b: set<T>)
    requires a <= b
    ensures |a| <= |b|
    decreases a
  {
    if a != {} {
      var x :| x in a;
      SubsetSize(a - {x}, b - {x});
    }
  }
}
