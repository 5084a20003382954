# QuakeReader list adapter, modelled in Dafny

QuakeReader shows a list of earthquakes. Each earthquake is a `Quaker`
record: a magnitude, a location text, a time in epoch milliseconds and a
detail URL. `QuakeAdapter.getView` turns one record into one row of the
list, as follows:

- It splits the location at the first "of". `"5km N of Example City"`
  becomes the offset `"5km N of"` and the primary location
  `" Example City"`. A location without "of" is shown whole, after the
  localized "near the" text.
- It colours the magnitude badge by the floor of the magnitude.
- It formats the magnitude, the date and the time.
- It inflates a new row only when the list offers no recycled row. A
  recycled row is handed back untouched.

The model has five modules:

- `Wrappers` (`wrappers.dfy`). `Option`, and the `Result` that stands for
  a Java exception.
- `QuakerRecord` (`quaker.dfy`). The record as an immutable datatype, with
  its four getters.
- `LocationSplit` (`location_split.dfy`). The location logic of `getView`.
  It rests on an explicit model of Java's `String.contains`,
  `String.indexOf` and `String.split` (limit 0) for the separator `"of"`.
  `split` cuts at each occurrence from left to right and drops trailing
  empty pieces. When nothing but "of"s follows the first "of", fewer than
  two pieces are left, and `location[1]` throws, or `location[0]` already
  does when the location is nothing but "of"s. The model returns this as
  an `IndexOutOfBounds` error.
- `MagnitudeColor` (`magnitude_color.dfy`). The `getMagnitude` switch from
  the floored magnitude to one of ten colour keys. It includes the
  saturating `(int)` cast.
- `QuakeAdapter` (`quake_adapter.dfy`). `RenderRow` is the content a fresh
  row receives, as a pure function. The class `RowView` holds the row's
  widgets as fields. The class `QuakeAdapter` has a `GetView` method that
  returns a recycled row untouched. For a fresh row it inflates the row,
  fills it field by field, and is proved to make it show `RenderRow`'s
  content.

Behaviour of the code worth knowing:

- The primary location is only the piece between the first and the second
  "of". `"10km S of Bay of Islands"` gives `" Bay "`.
- A location with nothing but "of"s after its first "of" throws. Examples
  are `"5km N of"` and `"aofof"` (at `location[1]`), and `"of"`, which
  fails already at `location[0]`.
- Only floors 0 and 1 map to `magnitude1`. A negative floor maps to
  `magnitude10plus`.

## Model

| member | source | states |
|---|---|---|
| `LocationSplit.IndexOfFrom` | app/src/main/java/com/example/android/quakereport/QuakeAdapter.java:45 | the result is -1 or an occurrence of "of" at or after the start index, and no occurrence lies between the start index and the result |
| `LocationSplit.IndexOf` | app/src/main/java/com/example/android/quakereport/QuakeAdapter.java:50 | the result is -1 exactly when the location does not contain "of" (as a plain, case-sensitive substring); otherwise it is the first occurrence |
| `LocationSplit.Pieces` | app/src/main/java/com/example/android/quakereport/QuakeAdapter.java:45 | `split` cuts at each occurrence from left to right; there is at least one piece, and no piece contains "of" |
| `LocationSplit.JoinPieces` | app/src/main/java/com/example/android/quakereport/QuakeAdapter.java:45 | joining the pieces with "of" gives back the location |
| `LocationSplit.PiecesOfJoin` | app/src/main/java/com/example/android/quakereport/QuakeAdapter.java:45 | separator-free pieces joined with "of" split back into the same pieces, because occurrences of "of" cannot overlap |
| `LocationSplit.DropTrailingEmpty` | app/src/main/java/com/example/android/quakereport/QuakeAdapter.java:45 | the result is a prefix of the pieces, everything dropped is empty, and the last piece kept is non-empty |
| `LocationSplit.TrimmedKeepsSecond` | app/src/main/java/com/example/android/quakereport/QuakeAdapter.java:45-52 | after trimming, two pieces remain exactly when some piece after the first is non-empty, and the first two are then unchanged |
| `LocationSplit.AllPiecesEmpty` | app/src/main/java/com/example/android/quakereport/QuakeAdapter.java:45 | every piece is empty exactly when the text is a run of "of"s |
| `LocationSplit.SplitWithoutSeparator` | app/src/main/java/com/example/android/quakereport/QuakeAdapter.java:50-55 | without "of", the offset is the "near the" text and the primary location is the location verbatim |
| `LocationSplit.SplitWithSeparator` | app/src/main/java/com/example/android/quakereport/QuakeAdapter.java:44-52 | with "of", the split fails exactly when only "of"s follow the first "of". On success, the offset is the text before the first "of" followed by "of", and the primary location is the piece after it, which ends at the second "of" if there is one |
| `LocationSplit.SplitErrorIndex` | app/src/main/java/com/example/android/quakereport/QuakeAdapter.java:45-52 | a failure happens only with "of" in the location; it is at `location[0]` when the location is only "of"s, else at `location[1]` |
| `LocationSplit.SplitIsPrefix` | app/src/main/java/com/example/android/quakereport/QuakeAdapter.java:50-52 | on success with "of", offset followed by primary is a prefix of the location, and the offset ends in "of" |
| `LocationSplit.FirstPiecesArePrefix` | app/src/main/java/com/example/android/quakereport/QuakeAdapter.java:51-52 | the text before an occurrence, then "of", then a prefix of what follows, is a prefix of the location |
| `LocationSplit.SplitOfJoin` | app/src/main/java/com/example/android/quakereport/QuakeAdapter.java:44-56 | for a location built from separator-free pieces joined by "of", the result is given exactly in terms of the pieces, including both error cases |
| `LocationSplit.SplitExampleNearCity` | app/src/main/java/com/example/android/quakereport/QuakeAdapter.java:44-52 | `"5km N of Example City"` gives `"5km N of"` and `" Example City"` |
| `LocationSplit.SplitExampleSecondSeparator` | app/src/main/java/com/example/android/quakereport/QuakeAdapter.java:44-52 | `"10km S of Bay of Islands"` gives `"10km S of"` and `" Bay "` |
| `LocationSplit.SplitExampleInsideWord` | app/src/main/java/com/example/android/quakereport/QuakeAdapter.java:44-52 | `"Sofia"` gives `"Sof"` and `"ia"` |
| `LocationSplit.SplitExamplesWithoutSeparator` | app/src/main/java/com/example/android/quakereport/QuakeAdapter.java:50-55 | `"Example City"` and `""` are shown whole after the "near the" text |
| `LocationSplit.SplitExamplesTrailingSeparator` | app/src/main/java/com/example/android/quakereport/QuakeAdapter.java:45-52 | `"5km N of"` and `"aofof"` fail at `location[1]` |
| `LocationSplit.SplitExampleOnlySeparator` | app/src/main/java/com/example/android/quakereport/QuakeAdapter.java:45-51 | `"of"` fails at `location[0]` |
| `MagnitudeColor.JavaIntFloor` | app/src/main/java/com/example/android/quakereport/QuakeAdapter.java:126 | the result is in Java's `int` range, and it is the floor of the magnitude whenever that floor is in range |
| `MagnitudeColor.ColorKeyIsPaletteEntry` | app/src/main/java/com/example/android/quakereport/QuakeAdapter.java:127-159 | the switch matches a range rule for every integer: 0..1 go to the first colour, each of 2..9 to its own, and everything else to the last |
| `MagnitudeColor.PaletteEntriesDistinct` | app/src/main/java/com/example/android/quakereport/QuakeAdapter.java:127-159 | the ten colour keys are pairwise different |
| `MagnitudeColor.FloorsZeroAndOneShareColor` | app/src/main/java/com/example/android/quakereport/QuakeAdapter.java:128-131 | floors 0 and 1 both map to `magnitude1` |
| `MagnitudeColor.FloorsOneToNineDistinct` | app/src/main/java/com/example/android/quakereport/QuakeAdapter.java:128-155 | floors 1..9 map to pairwise different keys, none of them `magnitude10plus` |
| `MagnitudeColor.OutsideZeroToNineIsTenPlus` | app/src/main/java/com/example/android/quakereport/QuakeAdapter.java:156-158 | every floor that is negative or at least 10 maps to `magnitude10plus` |
| `MagnitudeColor.ColorRisesWithFloor` | app/src/main/java/com/example/android/quakereport/QuakeAdapter.java:127-159 | for non-negative floors, the bucket (the colour's place in the palette) never goes down as the floor grows |
| `MagnitudeColor.ColorDependsOnlyOnFloor` | app/src/main/java/com/example/android/quakereport/QuakeAdapter.java:124-127 | the colour depends only on the floor, the saturating cast never changes it, and a negative magnitude gets `magnitude10plus` |
| `MagnitudeColor.ColorExamples` | app/src/main/java/com/example/android/quakereport/QuakeAdapter.java:124-161 | 3.0 maps to `magnitude3`, 9.95 to `magnitude9`, 10.0 to `magnitude10plus`, 0.5 and 1.9 to `magnitude1`, and -0.5 to `magnitude10plus` |
| `QuakeAdapter.RenderRowContent` | app/src/main/java/com/example/android/quakereport/QuakeAdapter.java:41-87 | a row can be filled exactly when the location's split succeeds. A filled row shows the split location, the colour of the magnitude's floor, and the formatted magnitude, date and time of the same record |
| `QuakeAdapter.RowView.Inflate` | app/src/main/java/com/example/android/quakereport/QuakeAdapter.java:37-38 | a freshly inflated row shows nothing of any earthquake yet |
| `QuakeAdapter.QuakeAdapter.constructor` | app/src/main/java/com/example/android/quakereport/QuakeAdapter.java:28-30 | the adapter holds the given list of records |
| `QuakeAdapter.QuakeAdapter.GetView` | app/src/main/java/com/example/android/quakereport/QuakeAdapter.java:34-91 | a recycled row is returned as the same object with no field changed, whatever the position. Without one, a fresh row shows exactly `RenderRow`'s content, or the `getItem` or split exception is returned |
| `QuakerRecord.GettersReturnConstructorArguments` | app/src/main/java/com/example/android/quakereport/Quaker.java:20-41 | each of the four getters returns the value passed to the constructor |
| `QuakerRecord.RecordDeterminedByGetters` | app/src/main/java/com/example/android/quakereport/Quaker.java:4-41 | a record is rebuilt exactly from its getters, so records whose getters agree are equal; as a datatype value, a record never changes after construction |

## Left out

- `formatMagnitude`, `formatDate` and `formatTime` (`DecimalFormat` and `SimpleDateFormat`) are library calls that depend on floating-point rounding, locale and time zone. They are passed to the adapter as given functions (`Formatters`), and the model only says that each is applied to the right field.
- Resource lookups are foreign calls. The "near the" text is a string parameter. The colour resources are the `ColorKey` names, and resolving them to colours with `ContextCompat.getColor` is not modelled.
- `LayoutInflater`, `findViewById`, `setText` and `GradientDrawable.setColor` are Android view plumbing. A row is a `RowView` object with one field per widget. The placeholder texts of the layout are modelled as empty.
- `MagnitudeColor.JavaIntFloor`: Java's `double` is modelled as an exact `real`. NaN (which the cast turns into 0, giving `magnitude1`), the infinities and binary rounding of decimal literals are not modelled.
- `LocationSplit.Split`: follows the documented contract of `String.split` with limit 0 for a literal two-character separator. Regular-expression matching in general is not modelled.
- A `null` list entry or a `null` location (a `NullPointerException` in `getView`) is not modelled. Records and strings are values.
- The list of records is modelled as a snapshot taken when the adapter is built. `ArrayAdapter` holds the caller's `List` by reference, so a later `add` or `clear` on it would change what `getItem` returns; that is not modelled.
- The URL field is stored and read back, and nothing in the adapter uses it.
