/** The request sent to the time-series service for one grid point and one
    event: its parameters, the location text and the two-day window. */
module Query {
  import opened Wrappers
  import opened Text
  import opened Grid

  /** Behaviour of the libraries the pipeline leans on, kept abstract:
      `number` renders a float as an f-string does, `day` renders a day
      (days since the epoch) as `%Y-%m-%d`, `quote` is URL percent-encoding,
      and `body` reads the tab-separated body of a payload into its readings. */
  datatype Codecs = Codecs(
    number: real -> string,
    day: int -> string,
    quote: string -> string,
    body: string -> Option<seq<real>>)

  const BaseUrl: string := "https://hydro1.gesdisc.eosdis.nasa.gov/daac-bin/access/timeseries.cgi"
  const RainfallVariable: string := "NLDAS2:NLDAS_FORA0125_H_v2.0:Rainf"
  const SeriesType: string := "asc2"
  const PointPrefix: string := "GEOM:POINT("

  /** The hours in the window after the event's date. */
  const WindowHours: int := 48

  /** The point-geometry location parameter: longitude first, then latitude. */
  function Location(c: Codecs, p: Point): string
  {
    PointPrefix + c.number(p.lon) + ", " + c.number(p.lat) + ")"
  }

  /** Reads a location parameter back into its (first, second) coordinate texts. */
  function PointOf(loc: string): Option<(string, string)>
  {
    if |loc| > |PointPrefix| && loc[..|PointPrefix|] == PointPrefix && loc[|loc| - 1] == ')' then
      var parts := Split(loc[|PointPrefix|..|loc| - 1], ',');
      if |parts| == 2 && |parts[1]| >= 1 && parts[1][0] == ' ' then Some((parts[0], parts[1][1..]))
      else None
    else None
  }

  /** The location text names the longitude first and the latitude second,
      and both can be read back from it when the number texts hold no comma. */
  lemma {:induction false} LocationIsLonLat(c: Codecs, p: Point)
    requires ',' !in c.number(p.lon) && ',' !in c.number(p.lat)
    ensures PointOf(Location(c, p)) == Some((c.number(p.lon), c.number(p.lat)))
  {
    var lon, lat := c.number(p.lon), c.number(p.lat);
    var loc := Location(c, p);
    assert loc == PointPrefix + (lon + [','] + (" " + lat)) + ")";
    var inner := lon + [','] + (" " + lat);
    assert loc[..|PointPrefix|] == PointPrefix;
    assert loc[|PointPrefix|..|loc| - 1] == inner;
    assert Join([lon, " " + lat], ',') == inner;
    SplitJoin([lon, " " + lat], ',');
    assert (" " + lat)[1..] == lat;
  }

  /** The calendar day (days since the epoch) holding the hour `hour` (hours since the epoch). */
  function DayOf(hour: int): (d: int)
    ensures 24 * d <= hour < 24 * d + 24
  {
    hour / 24
  }

  /** `strftime("%Y-%m-%dT00")` of the event time: its day at hour 00. */
  function StartDate(c: Codecs, hour: int): string
  {
    c.day(DayOf(hour)) + "T00"
  }

  /** `strftime("%Y-%m-%dT00")` of the event time plus two days. */
  function EndDate(c: Codecs, hour: int): string
  {
    c.day(DayOf(hour + WindowHours)) + "T00"
  }

  /** The window runs from the event's day at 00 to two calendar days later at 00. */
  lemma WindowIsTwoDays(c: Codecs, hour: int)
    ensures DayOf(hour + WindowHours) == DayOf(hour) + 2
    ensures EndDate(c, hour) == c.day(DayOf(hour) + 2) + "T00"
  {
  }

  /** The query parameters, in the order they appear in the URL. */
  function Parameters(c: Codecs, variable: string, p: Point, startDate: string, endDate: string): (ps: seq<(string, string)>)
    ensures |ps| == 5
  {
    [("variable", variable), ("type", SeriesType), ("location", Location(c, p)),
     ("startDate", startDate), ("endDate", endDate)]
  }

  /** The `key=quote(value)` fields of the query string, in order. */
  function Fields(c: Codecs, ps: seq<(string, string)>): (fs: seq<string>)
    ensures |fs| == |ps|
    ensures forall j :: 0 <= j < |ps| ==> fs[j] == ps[j].0 + "=" + c.quote(ps[j].1)
  {
    if ps == [] then [] else [ps[0].0 + "=" + c.quote(ps[0].1)] + Fields(c, ps[1..])
  }

  /** The full request URL: the fields joined by '&' after the base URL. */
  function FullUrl(c: Codecs, ps: seq<(string, string)>): string
  {
    BaseUrl + "?" + Join(Fields(c, ps), '&')
  }

  /** The URL fetched for grid point `p` of an event at hour `hour`. */
  function SeriesUrl(c: Codecs, p: Point, hour: int): string
  {
    FullUrl(c, Parameters(c, RainfallVariable, p, StartDate(c, hour), EndDate(c, hour)))
  }

  /** When encoding keeps '&' and '=' out of the values, the URL's query
      string splits back into the five `key=encoded value` fields in order. */
  lemma {:induction false} UrlFields(c: Codecs, p: Point, hour: int)
    requires forall s :: '&' !in c.quote(s) && '=' !in c.quote(s)
    ensures SeriesUrl(c, p, hour)[..|BaseUrl| + 1] == BaseUrl + "?"
    ensures Split(SeriesUrl(c, p, hour)[|BaseUrl| + 1..], '&') ==
      [ "variable=" + c.quote(RainfallVariable), "type=" + c.quote(SeriesType),
        "location=" + c.quote(Location(c, p)),
        "startDate=" + c.quote(StartDate(c, hour)), "endDate=" + c.quote(EndDate(c, hour)) ]
  {
    var ps := Parameters(c, RainfallVariable, p, StartDate(c, hour), EndDate(c, hour));
    var fields := Fields(c, ps);
    var url := SeriesUrl(c, p, hour);
    assert url == BaseUrl + "?" + Join(fields, '&');
    assert url[|BaseUrl| + 1..] == Join(fields, '&');
    assert "variable" + "=" == "variable=" && "type" + "=" == "type=" && "location" + "=" == "location=";
    assert "startDate" + "=" == "startDate=" && "endDate" + "=" == "endDate=";
    assert fields == [ "variable=" + c.quote(RainfallVariable), "type=" + c.quote(SeriesType),
      "location=" + c.quote(Location(c, p)),
      "startDate=" + c.quote(StartDate(c, hour)), "endDate=" + c.quote(EndDate(c, hour)) ];
    SplitJoin(fields, '&');
  }
}
