/** What the environment may do to a durable effect. */
module Faults {
  datatype Fate = Proceed | RaiseBefore | RaiseAfter | Die

  datatype Signal = Done | Raised | Died

  ghost predicate Calm(fates: seq<Fate>) {
    forall i :: 0 <= i < |fates| ==> fates[i] == Proceed
  }

  /** At most one effect fails, and the executor survives it. */
  ghost predicate Tame(fates: seq<Fate>) {
    Calm(fates) || (!fates[0].Die? && Tame(fates[1..]) && (fates[0] == Proceed || Calm(fates[1..])))
  }

  /** The next fate of a script; an empty script lets everything proceed. */
  function NextFate(fates: seq<Fate>): (f: Fate)
    ensures Calm(fates) ==> f == Proceed
  {
    if fates == [] then Proceed else fates[0]
  }

  function LaterFates(fates: seq<Fate>): (later: seq<Fate>)
    ensures Calm(fates) ==> Calm(later)
    ensures Tame(fates) ==> Tame(later) && NextFate(fates) != Die
    ensures Tame(fates) && NextFate(fates) != Proceed ==> Calm(later)
  {
    if fates == [] then [] else fates[1..]
  }
}
