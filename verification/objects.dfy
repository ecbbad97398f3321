/**
 * The contents a tile of the Wumpus world can hold: the `Object` enum of
 * src/main.rs. It is a closed, field-less enum, so Rust numbers its
 * variants implicitly 0 to 6 in declaration order (`o as usize`), and
 * `#[derive(Copy, Clone)]` makes every use a copy of the value.
 */
module Objects {

  datatype Option<T> = None | Some(value: T)

  /** The seven variants, in declaration order. */
  datatype Object = Hero | Wumpus | Stench | Pit | Breeze | Gold | Glimmer

  /** Every variant, listed at the position of its discriminant. */
  const AllObjects: seq<Object> := [Hero, Wumpus, Stench, Pit, Breeze, Gold, Glimmer]

  /** The implicit discriminant Rust assigns to a variant (`o as usize`). */
  function Discriminant(o: Object): (d: nat)
    ensures d < |AllObjects|
    ensures AllObjects[d] == o
  {
    match o
    case Hero => 0
    case Wumpus => 1
    case Stench => 2
    case Pit => 3
    case Breeze => 4
    case Gold => 5
    case Glimmer => 6
  }

  /** The variant whose discriminant is `d`, if there is one. */
  function FromDiscriminant(d: nat): (r: Option<Object>)
    ensures r.Some? <==> d < 7
    ensures r.Some? ==> Discriminant(r.value) == d
  {
    if d < |AllObjects| then Some(AllObjects[d]) else None
  }

  /** Decoding the discriminant of a variant gives that variant back. */
  lemma DiscriminantRoundTrip(o: Object)
    ensures FromDiscriminant(Discriminant(o)) == Some(o)
  {
  }

  /**
   * The enum is closed and has exactly seven variants: every object is one
   * of the listed ones, the list has no repetition, and distinct variants
   * have distinct discriminants.
   */
  lemma ExactlySevenVariants(o: Object, o': Object)
    ensures |AllObjects| == 7
    ensures o in AllObjects
    ensures forall i, j :: 0 <= i < j < |AllObjects| ==> AllObjects[i] != AllObjects[j]
    ensures Discriminant(o) == Discriminant(o') <==> o == o'
  {
  }
}
