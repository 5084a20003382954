/**
 * How `QuakeAdapter.getView` divides a location such as "10km S of Bay of
 * Islands" into an offset ("10km S of") and a primary location.
 *
 * The adapter relies on three library calls with the separator "of":
 * `String.contains`, the `String.indexOf` it is built on, and
 * `String.split` with its default limit of 0. The
 * separator is a two-character literal with no regular-expression
 * metacharacter, so `split` matches it literally, scanning left to right;
 * since 'o' != 'f', one occurrence can never overlap the next. The functions
 * below model those calls for this separator.
 */
module LocationSplit {
  import opened Wrappers

  /** `LOCATION_SEPARATOR` */
  const LocationSeparator: string := "of"

  /** An occurrence of the separator starts at index `i` of `s`. */
  predicate MatchAt(s: string, i: int) {
    0 <= i && i + 2 <= |s| && s[i] == 'o' && s[i + 1] == 'f'
  }

  /** `s.contains("of")`: the separator occurs somewhere, as a plain substring. */
  predicate Contains(s: string) {
    exists i | 0 <= i < |s| :: MatchAt(s, i)
  }

  /** The first occurrence at or after `from`, or -1 when there is none. */
  function IndexOfFrom(s: string, from: nat): (r: int)
    requires from <= |s|
    ensures r == -1 || (from <= r && MatchAt(s, r))
    ensures forall k :: from <= k < (if r == -1 then |s| else r) ==> !MatchAt(s, k)
    decreases |s| - from
  {
    if from + 2 > |s| then -1
    else if MatchAt(s, from) then from
    else IndexOfFrom(s, from + 1)
  }

  /** `s.indexOf("of")`: the first occurrence, or -1 exactly when `s` does not contain it. */
  function IndexOf(s: string): (r: int)
    ensures r == -1 <==> !Contains(s)
    ensures r != -1 ==> MatchAt(s, r) && forall k :: 0 <= k < r ==> !MatchAt(s, k)
  {
    IndexOfFrom(s, 0)
  }

  /**
   * The pieces between successive occurrences, found left to right, with
   * every piece kept: the list `split` builds before it trims the tail.
   * Each piece is free of the separator.
   */
  function Pieces(s: string): (ps: seq<string>)
    ensures |ps| >= 1
    ensures forall k :: 0 <= k < |ps| ==> !Contains(ps[k])
    decreases |s|
  {
    var i := IndexOf(s);
    if i == -1 then [s]
    else
      PrefixBeforeFirstMatch(s, i);
      [s[..i]] + Pieces(s[i + 2..])
  }

  /** The text before the first occurrence contains no occurrence. */
  lemma PrefixBeforeFirstMatch(s: string, i: int)
    requires i == IndexOf(s) && i != -1
    ensures !Contains(s[..i])
  {
    forall k | MatchAt(s[..i], k)
      ensures false
    {
      assert MatchAt(s, k);
    }
  }

  /** Java's `String.join("of", ps)`: the pieces with the separator between them. */
  function Join(ps: seq<string>): string
    decreases |ps|
  {
    if |ps| == 0 then ""
    else if |ps| == 1 then ps[0]
    else ps[0] + LocationSeparator + Join(ps[1..])
  }

  /** Joining the pieces with the separator gives back the whole string. */
  lemma {:induction false} JoinPieces(s: string)
    ensures Join(Pieces(s)) == s
    decreases |s|
  {
    var i := IndexOf(s);
    if i != -1 {
      var rest := s[i + 2..];
      JoinPieces(rest);
      assert Pieces(s) == [s[..i]] + Pieces(rest);
      assert s == s[..i] + LocationSeparator + rest;
    }
  }

  /**
   * The first occurrence in `a + "of" + b` is the one after `a` when `a`
   * holds none: the last character of `a` cannot start an occurrence, since
   * the separator starts with 'o' and not with 'f'.
   */
  lemma FirstMatchAfterCleanPrefix(a: string, b: string)
    requires !Contains(a)
    ensures IndexOf(a + LocationSeparator + b) == |a|
  {
    var s := a + LocationSeparator + b;
    assert MatchAt(s, |a|);
    var r := IndexOf(s);
    if r + 1 < |a| {
      assert MatchAt(a, r);
    }
  }

  /**
   * The pieces are recovered from their join whenever none of them holds the
   * separator: occurrences never overlap, so `split` cannot cut anywhere but
   * at the separators `Join` put in.
   */
  lemma {:induction false} PiecesOfJoin(ps: seq<string>)
    requires |ps| >= 1
    requires forall k :: 0 <= k < |ps| ==> !Contains(ps[k])
    ensures Pieces(Join(ps)) == ps
    decreases |ps|
  {
    if |ps| == 1 {
      assert IndexOf(ps[0]) == -1;
    } else {
      var rest := Join(ps[1..]);
      var s := ps[0] + LocationSeparator + rest;
      FirstMatchAfterCleanPrefix(ps[0], rest);
      assert s[..|ps[0]|] == ps[0];
      assert s[|ps[0]| + 2..] == rest;
      PiecesOfJoin(ps[1..]);
      assert Pieces(s) == [ps[0]] + ps[1..];
    }
  }

  /** The list with its trailing empty strings removed, as `split` does with limit 0. */
  function DropTrailingEmpty(ps: seq<string>): (r: seq<string>)
    ensures |r| <= |ps| && r == ps[..|r|]
    ensures forall k :: |r| <= k < |ps| ==> ps[k] == ""
    ensures |r| > 0 ==> r[|r| - 1] != ""
    decreases |ps|
  {
    if |ps| > 0 && ps[|ps| - 1] == "" then DropTrailingEmpty(ps[..|ps| - 1]) else ps
  }

  /**
   * `s.split("of")`: the input alone when the separator does not occur;
   * otherwise the pieces without the trailing empty ones, which may leave
   * fewer than two, or none at all.
   */
  function Split(s: string): seq<string>
  {
    if !Contains(s) then [s] else DropTrailingEmpty(Pieces(s))
  }

  /** Two or more pieces survive the trimming exactly when one after the first is non-empty. */
  lemma TrimmedKeepsSecond(ps: seq<string>)
    ensures |DropTrailingEmpty(ps)| >= 2 <==> exists k :: 1 <= k < |ps| && ps[k] != ""
    ensures |DropTrailingEmpty(ps)| >= 2 ==> DropTrailingEmpty(ps)[..2] == ps[..2]
  {
    var r := DropTrailingEmpty(ps);
    if |r| >= 2 {
      assert ps[|r| - 1] != "";
    }
  }

  /** The text is nothing but separators, one after the other (possibly none). */
  predicate OnlySeparators(t: string)
    decreases |t|
  {
    t == "" || (MatchAt(t, 0) && OnlySeparators(t[2..]))
  }

  /** Every piece is empty exactly when the text is a run of separators. */
  lemma {:induction false} AllPiecesEmpty(t: string)
    ensures (forall k :: 0 <= k < |Pieces(t)| ==> Pieces(t)[k] == "") <==> OnlySeparators(t)
    decreases |t|
  {
    var i := IndexOf(t);
    if t == "" {
      assert Pieces(t) == [""];
    } else if i == -1 {
      assert Pieces(t)[0] == t;
      assert !MatchAt(t, 0);
    } else if i == 0 {
      var rest := t[2..];
      AllPiecesEmpty(rest);
      assert Pieces(t) == [""] + Pieces(rest);
      if OnlySeparators(rest) {
        assert forall k :: 1 <= k < |Pieces(t)| ==> Pieces(t)[k] == Pieces(rest)[k - 1];
      } else {
        var k :| 0 <= k < |Pieces(rest)| && Pieces(rest)[k] != "";
        assert Pieces(t)[k + 1] != "";
      }
    } else {
      assert Pieces(t)[0] == t[..i] && |t[..i]| > 0;
      assert !MatchAt(t, 0);
    }
  }

  /** Where `getView` puts the two halves of a location. */
  datatype Location = Location(offset: string, primary: string)

  /**
   * `location[i]` with `i` not below the array's length: the
   * `ArrayIndexOutOfBoundsException` the split branch of `getView` can throw.
   */
  datatype SplitError = IndexOutOfBounds(index: nat, length: nat)

  /**
   * Lines 44-56 of QuakeAdapter.java (inside `getView`): when the location contains "of", the offset is
   * the first split piece followed by "of" and the primary location is the
   * second piece; otherwise the offset is the localized "near the" text and
   * the primary location is the whole location. Reading a piece that the
   * split did not produce fails.
   */
  function SplitLocation(places: string, nearThe: string): Result<Location, SplitError>
  {
    var location := Split(places);
    if Contains(places) then
      if |location| == 0 then Err(IndexOutOfBounds(0, 0))
      else if |location| == 1 then Err(IndexOutOfBounds(1, 1))
      else Ok(Location(location[0] + LocationSeparator, location[1]))
    else Ok(Location(nearThe, places))
  }

  /**
   * The piece that follows the first "of": up to the second "of" if there is
   * one, else to the end of the text.
   */
  function SecondPiece(places: string): string
    requires Contains(places)
  {
    var rest := places[IndexOf(places) + 2..];
    var j := IndexOf(rest);
    if j == -1 then rest else rest[..j]
  }

  /** Without "of", the offset is the "near the" text and the location is shown verbatim. */
  lemma SplitWithoutSeparator(places: string, nearThe: string)
    requires !Contains(places)
    ensures SplitLocation(places, nearThe) == Ok(Location(nearThe, places))
  {
  }

  /**
   * With "of", the split fails exactly when everything after the first "of"
   * is more "of"s (or nothing), and on success the offset is the text up to
   * and including the first "of" and the primary location is only the piece
   * after it, ending at the second "of" if there is one.
   */
  lemma SplitWithSeparator(places: string, nearThe: string)
    requires Contains(places)
    ensures var i := IndexOf(places);
      SplitLocation(places, nearThe).Err? <==> OnlySeparators(places[i + 2..])
    ensures SplitLocation(places, nearThe).Ok? ==>
      SplitLocation(places, nearThe).value.offset == places[..IndexOf(places)] + LocationSeparator
      && SplitLocation(places, nearThe).value.primary == SecondPiece(places)
  {
    var i := IndexOf(places);
    var rest := places[i + 2..];
    var ps := Pieces(places);
    assert ps == [places[..i]] + Pieces(rest);
    TrimmedKeepsSecond(ps);
    AllPiecesEmpty(rest);
    if OnlySeparators(rest) {
      assert forall k :: 1 <= k < |ps| ==> ps[k] == Pieces(rest)[k - 1];
    } else {
      var k :| 0 <= k < |Pieces(rest)| && Pieces(rest)[k] != "";
      assert ps[k + 1] != "";
    }
  }

  /**
   * On failure, the error names the index `getView` tried to read: index 0
   * when nothing but separators was split, so that not even `location[0]`
   * exists, and index 1 otherwise.
   */
  lemma SplitErrorIndex(places: string, nearThe: string)
    requires SplitLocation(places, nearThe).Err?
    ensures Contains(places)
    ensures SplitLocation(places, nearThe).error ==
      if OnlySeparators(places) then IndexOutOfBounds(0, 0) else IndexOutOfBounds(1, 1)
  {
    var ps := Pieces(places);
    AllPiecesEmpty(places);
    var r := DropTrailingEmpty(ps);
    if OnlySeparators(places) {
      assert |r| == 0;
    } else {
      var k :| 0 <= k < |ps| && ps[k] != "";
      assert |r| > k;
    }
  }

  /**
   * A successful split with "of" reads the location in order: offset then
   * primary is a prefix of the location, and the offset ends with "of".
   */
  lemma SplitIsPrefix(places: string, nearThe: string)
    requires Contains(places) && SplitLocation(places, nearThe).Ok?
    ensures var loc := SplitLocation(places, nearThe).value;
      loc.offset + loc.primary <= places
      && loc.offset[|loc.offset| - 2..] == LocationSeparator
  {
    SplitWithSeparator(places, nearThe);
    var i := IndexOf(places);
    var rest := places[i + 2..];
    var p := SecondPiece(places);
    assert p <= rest by {
      var j := IndexOf(rest);
      if j != -1 { assert p == rest[..j]; }
    }
    FirstPiecesArePrefix(places, i, p);
  }

  lemma FirstPiecesArePrefix(places: string, i: int, p: string)
    requires MatchAt(places, i)
    requires p <= places[i + 2..]
    ensures places[..i] + LocationSeparator + p <= places
  {
    assert places[..i] + LocationSeparator == places[..i + 2];
    assert places == places[..i + 2] + places[i + 2..];
  }

  /**
   * The split read backwards: a location made of separator-free pieces
   * joined by "of" (at least two of them, which is how every location that
   * contains "of" is made) succeeds exactly when a piece after the first is
   * non-empty, and then yields the first piece plus "of" and the second
   * piece. Otherwise `getView` fails at `location[1]`, or already at
   * `location[0]` when every piece is empty.
   */
  lemma SplitOfJoin(ps: seq<string>, nearThe: string)
    requires |ps| >= 2
    requires forall k :: 0 <= k < |ps| ==> !Contains(ps[k])
    ensures SplitLocation(Join(ps), nearThe) ==
      if exists k :: 1 <= k < |ps| && ps[k] != "" then Ok(Location(ps[0] + LocationSeparator, ps[1]))
      else if ps[0] == "" then Err(IndexOutOfBounds(0, 0))
      else Err(IndexOutOfBounds(1, 1))
  {
    var s := Join(ps);
    PiecesOfJoin(ps);
    assert MatchAt(s, |ps[0]|);
    TrimmedKeepsSecond(ps);
    var r := DropTrailingEmpty(ps);
    if !exists k :: 1 <= k < |ps| && ps[k] != "" {
      assert |r| <= 1;
      if ps[0] == "" {
        assert |r| == 0;
      } else {
        assert |r| == 1;
      }
    }
  }


  /** A location from the feed: the offset keeps its "of", the primary keeps its leading space. */
  lemma SplitExampleNearCity(nearThe: string)
    ensures SplitLocation("5km N of Example City", nearThe) == Ok(Location("5km N of", " Example City"))
  {
    var ps := ["5km N ", " Example City"];
    assert !Contains(ps[0]) && !Contains(ps[1]);
    assert Join(ps) == "5km N of Example City";
    SplitOfJoin(ps, nearThe);
    assert ps[1] != "";
    assert ps[0] + LocationSeparator == "5km N of";
  }

  /** A second "of" ends the primary location: the rest of the name is lost. */
  lemma SplitExampleSecondSeparator(nearThe: string)
    ensures SplitLocation("10km S of Bay of Islands", nearThe) == Ok(Location("10km S of", " Bay "))
  {
    var ps := ["10km S ", " Bay ", " Islands"];
    assert !Contains(ps[0]) && !Contains(ps[1]) && !Contains(ps[2]);
    assert Join(ps) == "10km S of Bay of Islands";
    SplitOfJoin(ps, nearThe);
    assert ps[1] != "";
    assert ps[0] + LocationSeparator == "10km S of";
  }

  /** The separator is matched inside words too. */
  lemma SplitExampleInsideWord(nearThe: string)
    ensures SplitLocation("Sofia", nearThe) == Ok(Location("Sof", "ia"))
  {
    var ps := ["S", "ia"];
    assert !Contains(ps[0]) && !Contains(ps[1]);
    assert Join(ps) == "Sofia";
    SplitOfJoin(ps, nearThe);
    assert ps[1] != "";
    assert ps[0] + LocationSeparator == "Sof";
  }

  /** Locations without "of", the empty one included, are shown whole after the "near the" text. */
  lemma SplitExamplesWithoutSeparator(nearThe: string)
    ensures SplitLocation("Example City", nearThe) == Ok(Location(nearThe, "Example City"))
    ensures SplitLocation("", nearThe) == Ok(Location(nearThe, ""))
  {
    assert !Contains("Example City");
  }

  /** Locations on which `getView` throws at `location[1]`: nothing but "of"s follows the first "of". */
  lemma SplitExamplesTrailingSeparator(nearThe: string)
    ensures SplitLocation("5km N of", nearThe) == Err(IndexOutOfBounds(1, 1))
    ensures SplitLocation("aofof", nearThe) == Err(IndexOutOfBounds(1, 1))
  {
    var ps := ["5km N ", ""];
    assert !Contains(ps[0]) && !Contains(ps[1]);
    assert Join(ps) == "5km N of";
    SplitOfJoin(ps, nearThe);
    var qs := ["a", "", ""];
    assert !Contains(qs[0]) && !Contains(qs[1]) && !Contains(qs[2]);
    assert Join(qs) == "aofof";
    SplitOfJoin(qs, nearThe);
  }

  /** A location that is only "of" leaves no piece at all, so already `location[0]` throws. */
  lemma SplitExampleOnlySeparator(nearThe: string)
    ensures SplitLocation("of", nearThe) == Err(IndexOutOfBounds(0, 0))
  {
    assert Join(["", ""]) == "of";
    SplitOfJoin(["", ""], nearThe);
  }
}
