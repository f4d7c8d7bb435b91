/** The value XmlSimple hands to the reader (options `ForceArray => false`,
    `KeyToSymbol => true`), the Ruby values the reader builds from it, and
    the failures Ruby raises while the reader looks things up in it. */
module XmlNode {

  /** One node of the decoded index document. An element that occurs once
      under its parent is a `Hash` (its children and attributes, in document
      order, keyed by tag name); an element that repeats is an `Arr` of its
      occurrences; a text-only element is `Text`; `Nil` is what Ruby's
      `hash[:key]` gives for a key that is not there. */
  datatype Raw =
    | Nil
    | Text(s: string)
    | Hash(entries: seq<(string, Raw)>)
    | Arr(items: seq<Raw>)

  /** A value the reader stores: either a node as XmlSimple produced it (a
      Ruby String, Hash, Array or nil) or an Integer the reader computed. */
  datatype Value = Node(raw: Raw) | Int(n: int)

  /** The Ruby exceptions the reader can raise on a malformed document. */
  datatype RubyError =
    | NoMethodError   // a method called on nil, or `to_i` on a Hash or Array
    | TypeError       // `[:key]` on a String or Array, `File.join` of nil or a Hash
    | ArgumentError   // a call with the wrong number of arguments
    | DateError       // `DateTime.parse` of a string it cannot read

  datatype Option<+T> = None | Some(value: T)

  datatype Result<+T> = Success(value: T) | Failure(error: RubyError) {
    predicate IsFailure() { Failure? }

    function PropagateFailure<U>(): Result<U>
      requires Failure?
    {
      Failure(error)
    }

    function Extract(): T
      requires Success?
    {
      value
    }
  }

  /** Position of the first entry with key `k`, or `|es|` when there is none. */
  function Find(es: seq<(string, Raw)>, k: string): (i: nat)
    ensures i <= |es|
    ensures i < |es| ==> es[i].0 == k
    ensures forall j :: 0 <= j < i ==> es[j].0 != k
  {
    if es == [] then 0
    else if es[0].0 == k then 0
    else 1 + Find(es[1..], k)
  }

  /** Ruby's `Hash#has_key?`. */
  predicate HasKey(r: Raw, k: string) {
    r.Hash? && Find(r.entries, k) < |r.entries|
  }

  /** Ruby's `hash[:k]` on a Hash: the child stored under `k`, or nil. */
  function Get(r: Raw, k: string): (v: Raw)
    ensures HasKey(r, k) ==> v == r.entries[Find(r.entries, k)].1
    ensures !HasKey(r, k) ==> v == Nil
  {
    if HasKey(r, k) then r.entries[Find(r.entries, k)].1 else Nil
  }

  /** Looking a key up in a Hash whose first entry is `(k, v)`: that entry
      answers for `k`, the remaining entries answer for every other key. */
  lemma HashCons(k: string, v: Raw, rest: seq<(string, Raw)>, key: string)
    ensures HasKey(Hash([(k, v)] + rest), key) == (k == key || HasKey(Hash(rest), key))
    ensures Get(Hash([(k, v)] + rest), key) == if k == key then v else Get(Hash(rest), key)
  {
    var es := [(k, v)] + rest;
    if k != key {
      assert es[1..] == rest;
    }
  }

  /** The exception Ruby raises when `[:key]` is applied to something that
      is not a Hash: nil has no `[]`, and String#[] and Array#[] refuse a
      Symbol index. */
  function NotAHashError(r: Raw): RubyError {
    if r.Nil? then NoMethodError else TypeError
  }

  /** Ruby's `x[:k]` for any decoded value `x`. */
  function Lookup(r: Raw, k: string): (res: Result<Raw>)
    ensures res.Success? <==> r.Hash?
    ensures res.Success? ==> res.value == Get(r, k)
  {
    if r.Hash? then Success(Get(r, k)) else Failure(NotAHashError(r))
  }
}
