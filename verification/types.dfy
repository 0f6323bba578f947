/** Values the listener passes around without looking inside them.

    JavaScript's "omitted or falsy" arguments (`undefined`, `null`, `0`, `''`)
    are modelled as `None`; every value the listener only compares with `===`
    or hands on unchanged is an opaque identity.
 */
module Types {

  /** `None` stands for an omitted or falsy JavaScript value. */
  datatype Option<+T> = None | Some(value: T) {

    /** The `x || fallback` idiom: the value when truthy, otherwise the fallback. */
    function GetOr(fallback: T): T {
      match this
      case Some(v) => v
      case None => fallback
    }
  }

  /** Identity of a subscriber function; only ever compared with `===`. */
  datatype Callback = Callback(id: nat)

  /** Identity of the receiver a subscriber asked to be called with. */
  datatype Scope = Scope(id: nat)

  /** One positional argument handed to subscribers and to `done`. */
  datatype Value = Value(id: nat)

  /** A truthy error value, signalled through `next(err)` or thrown. */
  datatype Error = Error(id: nat)

  type EventName = string

  /** Concatenation is associative; a named step keeps the solver out of
      sequence extensionality in proofs that carry many other facts. */
  lemma AppendAssoc<T>(a: seq<T>, b: seq<T>, c: seq<T>)
    ensures a + (b + c) == (a + b) + c
  {
  }

  /** The `events` parameter of every operation: one name or an array of names. */
  datatype EventNames = One(name: EventName) | Many(names: seq<EventName>) {

    /** A single string is treated as a one-element array. */
    function Names(): (ns: seq<EventName>)
      ensures One? ==> ns == [name]
      ensures Many? ==> ns == names
    {
      match this
      case One(n) => [n]
      case Many(ns) => ns
    }
  }
}
