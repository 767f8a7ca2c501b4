/**
 * The decision slice of the app's search action (app.py, `main`): after the
 * button press the two locations are checked, then the date range, and only
 * then are the dates rendered as `YYYY-MM-DD`, the route composed as
 * `<from>-to-<to>` and the Kayak link built from them.
 */
module App {

  import opened Wrappers
  import opened Kayak
  import opened Dates

  /** The two input errors the app reports before it builds a link. */
  datatype SearchError = MissingLocation | ReturnNotAfterPickup

  /** The message the app shows for each error. */
  function ErrorMessage(e: SearchError): string {
    match e
    case MissingLocation => "Please enter both locations"
    case ReturnNotAfterPickup => "Return date must be after pickup date"
  }

  /** What the search action ends with: an error message, or the generated link. */
  datatype Outcome = Rejected(error: SearchError) | Generated(url: string)

  /** The route string handed to the link builder: `f"{from_location}-to-{to_location}"`. */
  function Route(from: string, to: string): string {
    from + "-to-" + to
  }

  /**
   * The search action on its four inputs. An empty location is reported
   * first; then a pickup date on or after the return date; otherwise both
   * dates are formatted and the link is built for the composed route.
   */
  function Search(from: string, to: string, pickup: Date, ret: Date): Outcome
    requires Valid(pickup) && Valid(ret)
  {
    if from == [] || to == [] then Rejected(MissingLocation)
    else if AtOrAfter(pickup, ret) then Rejected(ReturnNotAfterPickup)
    else
      var pickupStr := FormatDate(pickup);
      var returnStr := FormatDate(ret);
      var location := Route(from, to);
      Generated(KayakSearch(location, pickupStr, returnStr))
  }

  /** An empty origin or destination is rejected, and no link is produced. */
  lemma MissingLocationRejected(from: string, to: string, pickup: Date, ret: Date)
    requires Valid(pickup) && Valid(ret)
    ensures Search(from, to, pickup, ret) == Rejected(MissingLocation) <==> (from == [] || to == [])
  {
  }

  /**
   * The locations are checked before the dates: with an empty location and
   * an inverted range both, the location error is the one reported.
   */
  lemma LocationCheckedFirst(from: string, to: string, pickup: Date, ret: Date)
    requires Valid(pickup) && Valid(ret)
    requires from == [] || to == []
    requires AtOrAfter(pickup, ret)
    ensures Search(from, to, pickup, ret) == Rejected(MissingLocation)
  {
  }

  /**
   * With both locations given, the range is rejected exactly when the return
   * date is not strictly later than the pickup date; equal dates included.
   */
  lemma DateRangeRejected(from: string, to: string, pickup: Date, ret: Date)
    requires Valid(pickup) && Valid(ret)
    requires from != [] && to != []
    ensures Search(from, to, pickup, ret) == Rejected(ReturnNotAfterPickup) <==> (pickup == ret || Before(ret, pickup))
    ensures Search(from, to, pickup, pickup) == Rejected(ReturnNotAfterPickup)
  {
    CompareIsChronological(pickup, ret, ret);
  }

  /** A link is produced exactly for two non-empty locations and a strictly later return date. */
  lemma SearchAccepted(from: string, to: string, pickup: Date, ret: Date)
    requires Valid(pickup) && Valid(ret)
    ensures Search(from, to, pickup, ret).Generated? <==> from != [] && to != [] && Before(pickup, ret)
  {
  }

  /** The route segment of the link is the two normalised locations joined by `-to-`. */
  lemma NormalizeRoute(from: string, to: string)
    ensures Normalize(Route(from, to)) == Normalize(from) + "-to-" + Normalize(to)
  {
    NormalizeConcat(from + "-to-", to);
    NormalizeConcat(from, "-to-");
    assert Normalize("-to-") == "-to-";
  }

  /** An accepted search builds its link from the composed route and the two dates rendered as `YYYY-MM-DD`. */
  lemma AcceptedLink(from: string, to: string, pickup: Date, ret: Date)
    requires Valid(pickup) && Valid(ret)
    requires Search(from, to, pickup, ret).Generated?
    ensures Search(from, to, pickup, ret).url == KayakSearch(Route(from, to), FormatDate(pickup), FormatDate(ret))
    ensures |FormatDate(pickup)| == 10 && |FormatDate(ret)| == 10
  {
    FormatDateShape(pickup);
    FormatDateShape(ret);
  }

  /**
   * When the locations hold no `/` or `?`, the link of an accepted search
   * reads back as the normalised `<from>-to-<to>` route and the two date
   * strings, and those read back as the pickup and return dates.
   */
  lemma AcceptedLinkReadsBack(from: string, to: string, pickup: Date, ret: Date)
    requires Valid(pickup) && Valid(ret)
    requires Search(from, to, pickup, ret).Generated?
    requires '/' !in from && '?' !in from && '/' !in to && '?' !in to
    ensures ParseSearchUrl(Search(from, to, pickup, ret).url)
         == Some(SearchPath(Normalize(from) + "-to-" + Normalize(to), FormatDate(pickup), FormatDate(ret)))
    ensures ParseDate(FormatDate(pickup)) == Some(pickup) && ParseDate(FormatDate(ret)) == Some(ret)
  {
    var route := Route(from, to);
    assert '/' !in route && '?' !in route;
    FormatDateShape(pickup);
    FormatDateShape(ret);
    ParseKayakSearch(route, FormatDate(pickup), FormatDate(ret));
    NormalizeRoute(from, to);
    ParseFormatDate(pickup);
    ParseFormatDate(ret);
  }

  lemma DefaultRoute()
    ensures Route("Boston", "New Hampshire") == "Boston-to-New Hampshire"
  {
  }

  lemma FormatJune1()
    ensures FormatDate(Date(2024, 6, 1)) == "2024-06-01"
  {
  }

  lemma FormatJune5()
    ensures FormatDate(Date(2024, 6, 5)) == "2024-06-05"
  {
  }

  /** The app's default locations, with June 1 to June 5, 2024. */
  lemma DefaultSearch()
    ensures Search("Boston", "New Hampshire", Date(2024, 6, 1), Date(2024, 6, 5))
         == Generated("https://www.kayak.com/cars/" + "boston-to-new-hampshire" + "/" + "2024-06-01" + "/" + "2024-06-05" + "?sort=price_a")
  {
    DefaultRoute();
    FormatJune1();
    FormatJune5();
    ScenarioBostonToNewHampshire();
  }
}
