/**
 * `QuakeAdapter`: the list adapter that fills one row of the earthquake list.
 * A row is inflated only when the list offers no recycled row; a recycled row
 * is handed back as it is. The row's widgets are modelled as plain fields,
 * and the library formatters (`DecimalFormat` for the magnitude,
 * `SimpleDateFormat` for date and time) as functions the adapter is given.
 */
module QuakeAdapter {
  import opened Wrappers
  import opened QuakerRecord
  import opened LocationSplit
  import opened MagnitudeColor

  /** `formatMagnitude`, `formatDate` and `formatTime`: library calls, given as functions. */
  datatype Formatters = Formatters(
    magnitude: real -> string,
    date: int64 -> string,
    time: int64 -> string)

  /** What `getView` throws before it can return a row. */
  datatype ViewError =
    | ItemIndexOutOfBounds(position: int, size: nat)   // `getItem(position)` outside the list
    | LocationIndexOutOfBounds(index: nat, length: nat) // `location[index]` outside the split array

  /** What a filled row shows: five texts and the badge colour. */
  datatype RowContent = RowContent(
    offsetLocation: string,
    primaryLocation: string,
    magnitudeText: string,
    magnitudeColor: ColorKey,
    dateText: string,
    timeText: string)

  /** The content `getView` computes for one earthquake, or the exception it throws on the way. */
  function RenderRow(q: Quaker, nearThe: string, fmt: Formatters): Result<RowContent, ViewError>
  {
    match SplitLocation(q.GetLocation(), nearThe)
    case Err(IndexOutOfBounds(index, length)) => Err(LocationIndexOutOfBounds(index, length))
    case Ok(loc) => Ok(RowContent(
      loc.offset,
      loc.primary,
      fmt.magnitude(q.GetMagnitude()),
      MagnitudeColorKey(q.GetMagnitude()),
      fmt.date(q.GetTimeInMilliseconds()),
      fmt.time(q.GetTimeInMilliseconds())))
  }

  /**
   * A row can be filled exactly when the location has no "of", or has
   * something other than more "of"s after its first one. A filled row shows
   * the location split at the first "of" (or the "near the" text and the
   * whole location), the badge colour of the magnitude's floor, and the
   * formatted magnitude, date and time of the same earthquake.
   */
  lemma RenderRowContent(q: Quaker, nearThe: string, fmt: Formatters)
    ensures var places := q.GetLocation();
      RenderRow(q, nearThe, fmt).Err? <==> Contains(places) && OnlySeparators(places[IndexOf(places) + 2..])
    ensures var places, r := q.GetLocation(), RenderRow(q, nearThe, fmt);
      r.Ok? && !Contains(places) ==> r.value.offsetLocation == nearThe && r.value.primaryLocation == places
    ensures var places, r := q.GetLocation(), RenderRow(q, nearThe, fmt);
      r.Ok? && Contains(places) ==>
        r.value.offsetLocation == places[..IndexOf(places)] + LocationSeparator
        && r.value.primaryLocation == SecondPiece(places)
    ensures var r := RenderRow(q, nearThe, fmt);
      r.Ok? ==>
        r.value.magnitudeColor == ColorKeyOf(q.GetMagnitude().Floor)
        && r.value.magnitudeText == fmt.magnitude(q.GetMagnitude())
        && r.value.dateText == fmt.date(q.GetTimeInMilliseconds())
        && r.value.timeText == fmt.time(q.GetTimeInMilliseconds())
  {
    var places := q.GetLocation();
    ColorDependsOnlyOnFloor(q.GetMagnitude(), q.GetMagnitude());
    if Contains(places) {
      SplitWithSeparator(places, nearThe);
    }
  }

  /** One inflated `list_item` layout: its text views and the magnitude circle's colour. */
  class RowView {
    var offsetLocation: string
    var primaryLocation: string
    var magnitudeText: string
    var badgeColor: Option<ColorKey>
    var dateText: string
    var timeText: string

    /** `LayoutInflater.inflate`: a row with nothing of an earthquake in it yet. */
    constructor Inflate()
      ensures offsetLocation == primaryLocation == magnitudeText == dateText == timeText == ""
      ensures badgeColor == None
    {
      offsetLocation, primaryLocation, magnitudeText := "", "", "";
      badgeColor := None;
      dateText, timeText := "", "";
    }

    /** The row displays exactly `c`. */
    predicate Shows(c: RowContent)
      reads this
    {
      offsetLocation == c.offsetLocation && primaryLocation == c.primaryLocation
      && magnitudeText == c.magnitudeText && badgeColor == Some(c.magnitudeColor)
      && dateText == c.dateText && timeText == c.timeText
    }
  }

  class QuakeAdapter {
    /** The earthquakes the list shows, in order (held by `ArrayAdapter`). */
    const items: seq<Quaker>
    /** `getString(R.string.near_the)` */
    const nearThe: string
    const formatters: Formatters

    constructor(items: seq<Quaker>, nearThe: string, formatters: Formatters)
      ensures this.items == items && this.nearThe == nearThe
      ensures this.formatters == formatters
    {
      this.items := items;
      this.nearThe := nearThe;
      this.formatters := formatters;
    }

    /**
     * `getView`: a recycled row is returned untouched, whatever the
     * position; otherwise a fresh row is inflated and filled from the
     * earthquake at `position`, or the exception is reported.
     */
    method GetView(position: int, convertView: RowView?) returns (r: Result<RowView, ViewError>)
      ensures convertView != null ==> r == Ok(convertView) && unchanged(convertView)
      ensures convertView == null && !(0 <= position < |items|) ==>
        r == Err(ItemIndexOutOfBounds(position, |items|))
      ensures convertView == null && 0 <= position < |items| ==>
        match RenderRow(items[position], nearThe, formatters)
        case Ok(content) => r.Ok? && fresh(r.value) && r.value.Shows(content)
        case Err(e) => r == Err(e)
    {
      if convertView != null {
        return Ok(convertView);
      }
      var listViewItem := new RowView.Inflate();
      if !(0 <= position < |items|) {
        return Err(ItemIndexOutOfBounds(position, |items|));
      }
      var currentQuake := items[position];

      var location := SplitLocation(currentQuake.GetLocation(), nearThe);
      if location.Err? {
        return Err(LocationIndexOutOfBounds(location.error.index, location.error.length));
      }
      listViewItem.offsetLocation := location.value.offset;
      listViewItem.primaryLocation := location.value.primary;

      listViewItem.magnitudeText := formatters.magnitude(currentQuake.GetMagnitude());
      listViewItem.badgeColor := Some(MagnitudeColorKey(currentQuake.GetMagnitude()));

      listViewItem.dateText := formatters.date(currentQuake.GetTimeInMilliseconds());
      listViewItem.timeText := formatters.time(currentQuake.GetTimeInMilliseconds());
      return Ok(listViewItem);
    }
  }
}
