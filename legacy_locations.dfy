/**
 * The legacy [Flags] DockAreaLocation enum: four single-bit sides and the
 * four corners made by OR-ing one vertical and one horizontal side.
 * Enum values are 32-bit integers; the model keeps them as bv32.
 */
module LegacyLocations {

  type Flags = bv32

  const Left: Flags := 1
  const Top: Flags := 1 << 1
  const Right: Flags := 1 << 2
  const Bottom: Flags := 1 << 3

  const TopLeft: Flags := Top | Left
  const BottomLeft: Flags := Bottom | Left
  const TopRight: Flags := Top | Right
  const BottomRight: Flags := Bottom | Right

  /** The eight named members of the enum. */
  const Named: seq<Flags> := [Left, Top, Right, Bottom, TopLeft, BottomLeft, TopRight, BottomRight]

  /** Enum.HasFlag: every bit of the flag is set in the value (so every value has flag 0). */
  predicate HasFlag(value: Flags, flag: Flags) {
    value & flag == flag
  }

  /** A value with exactly one bit set. */
  predicate SingleBit(v: Flags) {
    v != 0 && v & (v - 1) == 0
  }

  /** Left, Top, Right and Bottom are the distinct single bits 1, 2, 4 and 8. */
  lemma SidesAreDistinctBits()
    ensures Left == 1 && Top == 2 && Right == 4 && Bottom == 8
    ensures SingleBit(Left) && SingleBit(Top) && SingleBit(Right) && SingleBit(Bottom)
    ensures Left & Top == 0 && Left & Right == 0 && Left & Bottom == 0
    ensures Top & Right == 0 && Top & Bottom == 0 && Right & Bottom == 0
  {
  }

  /** Each corner holds exactly one vertical and one horizontal side. */
  lemma CornersCombineOneVerticalOneHorizontal(c: Flags)
    requires c in [TopLeft, BottomLeft, TopRight, BottomRight]
    ensures HasFlag(c, Top) != HasFlag(c, Bottom)
    ensures HasFlag(c, Left) != HasFlag(c, Right)
    ensures c == (c & (Top | Bottom)) | (c & (Left | Right))
  {
  }

  /** Top is contained in Top, TopLeft and TopRight and in no other named value. */
  lemma TopMembership(v: Flags)
    requires v in Named
    ensures HasFlag(v, Top) <==> v == Top || v == TopLeft || v == TopRight
  {
  }

  /** Bottom is contained in Bottom, BottomLeft and BottomRight and in no other named value. */
  lemma BottomMembership(v: Flags)
    requires v in Named
    ensures HasFlag(v, Bottom) <==> v == Bottom || v == BottomLeft || v == BottomRight
  {
  }

  /** No named value holds two opposite sides. */
  lemma NoOppositeSides(v: Flags)
    requires v in Named
    ensures !(HasFlag(v, Left) && HasFlag(v, Right))
    ensures !(HasFlag(v, Top) && HasFlag(v, Bottom))
  {
  }

  /** The eight named values are pairwise distinct. */
  lemma NamedDistinct()
    ensures forall i, j :: 0 <= i < j < |Named| ==> Named[i] != Named[j]
  {
  }
}
