/**
 * `QuakeAdapter.getMagnitude`: the colour of the magnitude badge, chosen by
 * the floor of the magnitude. The model returns the name of the
 * colour resource; turning it into an actual colour is left to the theme.
 */
module MagnitudeColor {

  /** The colour resources `R.color.magnitude1` .. `R.color.magnitude10plus`. */
  datatype ColorKey =
    | Magnitude1 | Magnitude2 | Magnitude3 | Magnitude4 | Magnitude5
    | Magnitude6 | Magnitude7 | Magnitude8 | Magnitude9 | Magnitude10Plus

  /** Range of Java's `int`. */
  const IntMin: int := -0x8000_0000
  const IntMax: int := 0x7fff_ffff

  /** The `switch` on the floored magnitude. */
  function ColorKeyOf(magnitudeFloor: int): ColorKey
  {
    match magnitudeFloor
    case 0 => Magnitude1
    case 1 => Magnitude1
    case 2 => Magnitude2
    case 3 => Magnitude3
    case 4 => Magnitude4
    case 5 => Magnitude5
    case 6 => Magnitude6
    case 7 => Magnitude7
    case 8 => Magnitude8
    case 9 => Magnitude9
    case _ => Magnitude10Plus
  }

  /** `(int) Math.floor(magnitude)`: the floor, saturated to Java's `int` range by the cast. */
  function JavaIntFloor(magnitude: real): (f: int)
    ensures IntMin <= f <= IntMax
    ensures IntMin <= magnitude.Floor <= IntMax ==> f == magnitude.Floor
    ensures f as real <= magnitude || f == IntMin
    ensures magnitude < f as real + 1.0 || f == IntMax
  {
    if magnitude.Floor < IntMin then IntMin
    else if magnitude.Floor > IntMax then IntMax
    else magnitude.Floor
  }

  /** The badge colour `getView` asks for. */
  function MagnitudeColorKey(magnitude: real): ColorKey
  {
    ColorKeyOf(JavaIntFloor(magnitude))
  }

  /** The palette in order, one entry per bucket. */
  const Palette: seq<ColorKey> := [
    Magnitude1, Magnitude2, Magnitude3, Magnitude4, Magnitude5,
    Magnitude6, Magnitude7, Magnitude8, Magnitude9, Magnitude10Plus]

  /** The bucket of a floored magnitude, 1 to 10, as a range rule: up to 1, each of 2..9, then the rest. */
  function Bucket(magnitudeFloor: int): (b: int)
    ensures 1 <= b <= 10
  {
    if 0 <= magnitudeFloor <= 1 then 1
    else if 2 <= magnitudeFloor <= 9 then magnitudeFloor
    else 10
  }

  /** The `switch` agrees with the range rule read through the palette, for every integer. */
  lemma ColorKeyIsPaletteEntry(magnitudeFloor: int)
    ensures ColorKeyOf(magnitudeFloor) == Palette[Bucket(magnitudeFloor) - 1]
  {
  }

  /** The ten palette entries are ten different colours. */
  lemma PaletteEntriesDistinct()
    ensures |Palette| == 10
    ensures forall i, j :: 0 <= i < j < |Palette| ==> Palette[i] != Palette[j]
  {
  }

  /** Floors 0 and 1 share the first colour. */
  lemma FloorsZeroAndOneShareColor()
    ensures ColorKeyOf(0) == ColorKeyOf(1) == Magnitude1
  {
  }

  /**
   * Floors 1 to 9 get pairwise different colours, none of them the one for
   * 10 and above; so each of 2..9 has a colour of its own.
   */
  lemma FloorsOneToNineDistinct(a: int, b: int)
    requires 1 <= a <= 9 && 1 <= b <= 9
    ensures ColorKeyOf(a) == ColorKeyOf(b) <==> a == b
    ensures ColorKeyOf(a) != Magnitude10Plus
  {
  }

  /** Any floor outside 0..9, negative or from 10 up, gets the last colour. */
  lemma OutsideZeroToNineIsTenPlus(magnitudeFloor: int)
    requires magnitudeFloor < 0 || 9 < magnitudeFloor
    ensures ColorKeyOf(magnitudeFloor) == Magnitude10Plus
  {
  }

  /**
   * The bucket never goes down as a non-negative floor grows; with
   * `ColorKeyIsPaletteEntry`, the colour moves forward through the palette.
   */
  lemma ColorRisesWithFloor(f: int, g: int)
    requires 0 <= f <= g
    ensures Bucket(f) <= Bucket(g)
  {
  }

  /**
   * The colour of a magnitude depends only on its floor: the saturating
   * cast never changes the bucket, and a negative magnitude gets the last
   * colour.
   */
  lemma ColorDependsOnlyOnFloor(m: real, m': real)
    ensures MagnitudeColorKey(m) == ColorKeyOf(m.Floor)
    ensures m.Floor == m'.Floor ==> MagnitudeColorKey(m) == MagnitudeColorKey(m')
    ensures m < 0.0 ==> MagnitudeColorKey(m) == Magnitude10Plus
  {
  }

  /** Bucketing at the edges: 9.95 is still a 9, 10.0 is not; 0.5 and 1.9 look alike. */
  lemma ColorExamples()
    ensures MagnitudeColorKey(3.0) == Magnitude3
    ensures MagnitudeColorKey(9.95) == Magnitude9
    ensures MagnitudeColorKey(10.0) == Magnitude10Plus
    ensures MagnitudeColorKey(0.5) == MagnitudeColorKey(1.9) == Magnitude1
    ensures MagnitudeColorKey(-0.5) == Magnitude10Plus
  {
  }
}
