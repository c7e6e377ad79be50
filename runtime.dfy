/**
 * Small pieces of the JavaScript runtime that every layer of the two
 * extensions relies on: absent values, calls into collaborators that may
 * throw, truthiness of optional strings, and `Math.floor(Math.random() * n)`
 * with the random number taken as an input.
 */
module Runtime {

  /** A value that may be `null`/`undefined`. */
  datatype Option<+T> = None | Some(value: T)

  /**
   * The outcome of calling a collaborator that is not part of this model:
   * it either returns a value or throws an error with a message.
   */
  datatype Attempt<+T> = Returned(value: T) | Threw(message: string)

  /** JavaScript truthiness of a string that may be absent: `null`, `undefined` and `""` are falsy. */
  predicate Present(s: Option<string>)
  {
    s.Some? && s.value != ""
  }

  /** A value `Math.random()` can produce. */
  predicate IsRoll(roll: real)
  {
    0.0 <= roll < 1.0
  }

  /** Enough rolls, each a value `Math.random()` can produce, for `count` draws. */
  predicate AreRolls(rolls: seq<real>, count: nat)
  {
    |rolls| >= count && forall k :: 0 <= k < |rolls| ==> IsRoll(rolls[k])
  }

  /**
   * `Math.floor(roll * n)`: the index the source draws from a list of `n`
   * elements when `Math.random()` returned `roll`. It is always a valid index.
   */
  function RandomIndex(roll: real, n: nat): (i: nat)
    requires IsRoll(roll) && n > 0
    ensures i < n
  {
    assert roll * n as real < n as real;
    (roll * n as real).Floor
  }
}
