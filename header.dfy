/** `parse_time_series`: the `key=value` header block of a service payload,
    read into a dictionary, followed by the payload's body readings. */
module Header {
  import opened Wrappers
  import opened Text
  import opened Query

  /** The header lines are `lines[2:11]`: the nine lines after the two leading ones. */
  const HeaderStart: nat := 2
  const HeaderEnd: nat := 11

  /** The lines of the payload that the header loop reads. */
  function HeaderLines(payload: string): (w: seq<string>)
    ensures |w| <= HeaderEnd - HeaderStart
    ensures |Split(payload, '\n')| >= HeaderEnd ==> |w| == HeaderEnd - HeaderStart
    ensures forall j :: 0 <= j < |w| ==> HeaderStart + j < |Split(payload, '\n')| && w[j] == Split(payload, '\n')[HeaderStart + j]
  {
    Slice(Split(payload, '\n'), HeaderStart, HeaderEnd)
  }

  /** A line that unpacks into exactly one key and one value when split on '='. */
  predicate IsEntry(line: string)
  {
    |Split(line, '=')| == 2
  }

  function Entry(line: string): (string, string)
    requires IsEntry(line)
  {
    var parts := Split(line, '=');
    (parts[0], parts[1])
  }

  /** The dictionary filled from `pairs` in order, a later pair overwriting an earlier one. */
  function Fill(pairs: seq<(string, string)>): map<string, string>
  {
    if pairs == [] then map[]
    else Fill(pairs[..|pairs| - 1])[pairs[|pairs| - 1].0 := pairs[|pairs| - 1].1]
  }

  /** No pair after index `j` has the key `key`. */
  ghost predicate LastWith(pairs: seq<(string, string)>, key: string, j: nat)
  {
    forall l :: j < l < |pairs| ==> pairs[l].0 != key
  }

  /** A key is in the filled dictionary exactly when some pair has it, and it
      maps to the value of the last pair with that key. */
  lemma {:induction false} FillLastWins(pairs: seq<(string, string)>, key: string)
    ensures key in Fill(pairs) <==> exists j :: 0 <= j < |pairs| && pairs[j].0 == key
    ensures forall j :: 0 <= j < |pairs| && pairs[j].0 == key && LastWith(pairs, key, j) ==>
      Fill(pairs)[key] == pairs[j].1
    decreases |pairs|
  {
    if pairs != [] {
      var init := pairs[..|pairs| - 1];
      FillLastWins(init, key);
      forall j | 0 <= j < |init| ensures init[j] == pairs[j] { }
      if key != pairs[|pairs| - 1].0 {
        if exists j :: 0 <= j < |pairs| && pairs[j].0 == key {
          var j :| 0 <= j < |pairs| && pairs[j].0 == key;
          assert init[j].0 == key;
        }
      }
    }
  }

  /** The entries of the lines `w` in order, or the index of the first line that is not an entry. */
  function EntriesOf(w: seq<string>): (r: Result<seq<(string, string)>, nat>)
    ensures r.Ok? ==> |r.value| == |w| && forall j :: 0 <= j < |w| ==> IsEntry(w[j]) && r.value[j] == Entry(w[j])
    ensures r.Err? ==> r.error < |w| && !IsEntry(w[r.error]) && forall j :: 0 <= j < r.error ==> IsEntry(w[j])
    decreases |w|
  {
    if w == [] then Ok([])
    else
      var last := w[|w| - 1];
      match EntriesOf(w[..|w| - 1])
      case Err(j) => Err(j)
      case Ok(es) => if IsEntry(last) then Ok(es + [Entry(last)]) else Err(|w| - 1)
  }

  /** Reading stops at the first line that is not an entry. */
  lemma EntriesOfStops(w: seq<string>, i: nat)
    requires i < |w| && EntriesOf(w[..i]).Ok? && !IsEntry(w[i])
    ensures EntriesOf(w) == Err(i)
  {
    assert forall j :: 0 <= j < i ==> w[..i][j] == w[j];
  }

  /** What reading the header lines `w` yields: the dictionary of their entries,
      or, when a line is not an entry, an error naming the first such line. */
  function HeaderOf(w: seq<string>): Result<map<string, string>, Error>
  {
    match EntriesOf(w)
    case Err(j) => Err(HeaderError(HeaderStart + j))
    case Ok(es) => Ok(Fill(es))
  }

  /** Reading the header lines fails exactly when some line is not an entry,
      and then names the first such line; otherwise a key is in the dictionary
      exactly when some line has it, and maps to the value of the last such line. */
  lemma HeaderOfMeaning(w: seq<string>, key: string)
    ensures HeaderOf(w).Ok? <==> forall j :: 0 <= j < |w| ==> IsEntry(w[j])
    ensures HeaderOf(w).Err? ==>
      exists j :: 0 <= j < |w| && !IsEntry(w[j]) && HeaderOf(w).error == HeaderError(HeaderStart + j) &&
        forall l :: 0 <= l < j ==> IsEntry(w[l])
    ensures HeaderOf(w).Ok? ==>
      (key in HeaderOf(w).value <==> exists j :: 0 <= j < |w| && Entry(w[j]).0 == key)
    ensures HeaderOf(w).Ok? ==>
      forall j :: 0 <= j < |w| && Entry(w[j]).0 == key && (forall l :: j < l < |w| ==> Entry(w[l]).0 != key) ==>
        HeaderOf(w).value[key] == Entry(w[j]).1
  {
    var r := EntriesOf(w);
    if r.Ok? {
      FillLastWins(r.value, key);
      assert forall j :: 0 <= j < |w| ==> Entry(w[j]) == r.value[j];
    } else {
      assert !IsEntry(w[r.error]);
    }
  }

  /** A parsed payload: the header dictionary and the body readings in order. */
  type Series = (map<string, string>, seq<real>)

  /** What parsing a payload yields: the header first, then the body. */
  function SeriesOf(c: Codecs, payload: string): Result<Series, Error>
  {
    match HeaderOf(HeaderLines(payload))
    case Err(e) => Err(e)
    case Ok(m) =>
      match c.body(payload)
      case None => Err(BodyError)
      case Some(readings) => Ok((m, readings))
  }

  /** `parse_time_series`: split the payload into lines, read the header lines
      into a dictionary one by one, then read the body. */
  method ParseTimeSeries(c: Codecs, payload: string) returns (r: Result<Series, Error>)
    ensures r == SeriesOf(c, payload)
  {
    var lines := Split(payload, '\n');
    var window := Slice(lines, HeaderStart, HeaderEnd);
    var parameters := map[];
    var i := 0;
    ghost var entries := [];
    while i < |window|
      invariant 0 <= i <= |window|
      invariant EntriesOf(window[..i]) == Ok(entries)
      invariant parameters == Fill(entries)
    {
      var parts := Split(window[i], '=');
      assert window[..i + 1][..i] == window[..i];
      if |parts| != 2 {
        EntriesOfStops(window, i);
        return Err(HeaderError(HeaderStart + i));
      }
      parameters := parameters[parts[0] := parts[1]];
      entries := entries + [(parts[0], parts[1])];
      i := i + 1;
    }
    assert window[..i] == window;
    match c.body(payload)
    case None => r := Err(BodyError);
    case Some(readings) => r := Ok((parameters, readings));
  }

  /** The header lines `key=value` built from matching keys and values. */
  function EntryLines(keys: seq<string>, values: seq<string>): seq<string>
    requires |keys| == |values|
  {
    seq(|keys|, j requires 0 <= j < |keys| => keys[j] + "=" + values[j])
  }

  /** A line written as `key=value`, with neither part holding '=', reads back as that entry. */
  lemma EntryRoundTrip(key: string, value: string)
    requires '=' !in key && '=' !in value
    ensures IsEntry(key + "=" + value) && Entry(key + "=" + value) == (key, value)
  {
    assert Join([key, value], '=') == key + "=" + value;
    SplitJoin([key, value], '=');
  }

  /** A payload made of two leading lines, nine `key=value` lines and any body
      lines parses into the dictionary of those entries, later keys winning. */
  lemma {:induction false} HeaderRoundTrip(lead: seq<string>, keys: seq<string>, values: seq<string>, body: seq<string>)
    requires |lead| == HeaderStart && |keys| == HeaderEnd - HeaderStart && |values| == |keys|
    requires forall j :: 0 <= j < |lead| ==> '\n' !in lead[j]
    requires forall j :: 0 <= j < |body| ==> '\n' !in body[j]
    requires forall j :: 0 <= j < |keys| ==> '\n' !in keys[j] && '=' !in keys[j]
    requires forall j :: 0 <= j < |values| ==> '\n' !in values[j] && '=' !in values[j]
    ensures HeaderOf(HeaderLines(Join(lead + EntryLines(keys, values) + body, '\n'))) ==
      Ok(Fill(seq(|keys|, j requires 0 <= j < |keys| => (keys[j], values[j]))))
  {
    var entries := EntryLines(keys, values);
    var lines := lead + entries + body;
    forall j | 0 <= j < |lines| ensures '\n' !in lines[j] {
      if HeaderStart <= j < HeaderEnd {
        assert lines[j] == keys[j - HeaderStart] + "=" + values[j - HeaderStart];
      }
    }
    SplitJoin(lines, '\n');
    var w := HeaderLines(Join(lines, '\n'));
    assert w == entries;
    forall j | 0 <= j < |w| ensures IsEntry(w[j]) && Entry(w[j]) == (keys[j], values[j]) {
      EntryRoundTrip(keys[j], values[j]);
    }
    EntriesOfAll(w);
    assert EntriesOf(w).value == seq(|keys|, j requires 0 <= j < |keys| => (keys[j], values[j]));
  }

  /** Lines that are all entries read into the list of their entries. */
  lemma {:induction false} EntriesOfAll(w: seq<string>)
    requires forall j :: 0 <= j < |w| ==> IsEntry(w[j])
    ensures EntriesOf(w).Ok?
    decreases |w|
  {
    if w != [] {
      EntriesOfAll(w[..|w| - 1]);
    }
  }
}
