/** Values shared by every stage of the grid pipeline. */
module Types {

  /** A `{"latitude": .., "longitude": ..}` dictionary. The pipeline only ever
      builds such dictionaries with exactly these two keys, so a record stands for it. */
  datatype Coord = Coord(lat: real, lon: real)

  /** A `(latitude, longitude, duration)` tuple; `V` is `int` for fetched and
      max-combined durations and `real` once averaged or turned into a numpy array. */
  datatype Timed<V> = Timed(lat: real, lon: real, dur: V) {
    /** The `(lat, lon)` key that the aggregation dictionaries use. */
    function Key(): Coord { Coord(lat, lon) }
  }

  datatype Option<T> = None | Some(value: T)

  /** The exceptions the pipeline can raise, named after where they come from. */
  datatype Error =
    | AssertionFailed(which: int)  // AssertionError("Assert <which> failed") in build_grid
    | IndexOutOfRange              // IndexError: list index out of range
    | BadDuration                  // ValueError: int() of a malformed duration string
    | NegativeSampleCount          // ValueError: np.linspace with a negative count
    | ReshapeMismatch              // ValueError: ndarray.reshape to a shape of another size
    | UnhashableDict               // TypeError: set() over `{latitude, longitude}` dicts
    | BadSortOperand               // TypeError: unary minus applied to a tuple in the sort key

  datatype Result<T> = Ok(value: T) | Err(error: Error)

  /** `tuple_to_dict`: `(lat, lon)` to a `{latitude, longitude}` dictionary. */
  function TupleToDict(t: (real, real)): (d: Coord)
    ensures d.lat == t.0 && d.lon == t.1
  {
    Coord(t.0, t.1)
  }

  /** `dict_to_tuple`: a `{latitude, longitude}` dictionary to `(lat, lon)`. */
  function DictToTuple(d: Coord): (t: (real, real))
    ensures t.0 == d.lat && t.1 == d.lon
  {
    (d.lat, d.lon)
  }

  lemma TupleDictRoundTrip(t: (real, real), d: Coord)
    ensures DictToTuple(TupleToDict(t)) == t
    ensures TupleToDict(DictToTuple(d)) == d
  {
  }

  /** Python's `s[i]` for an `int` index: negative indices count from the end,
      anything outside `-len(s) .. len(s)-1` raises IndexError (`None` here). */
  function PyIndex<T>(s: seq<T>, i: int): (r: Option<T>)
    ensures r.Some? <==> -|s| <= i < |s|
    ensures 0 <= i < |s| ==> r == Some(s[i])
    ensures -|s| <= i < 0 ==> r == Some(s[|s| + i])
    ensures r.Some? ==> r.value in s
  {
    if 0 <= i < |s| then Some(s[i])
    else if -|s| <= i < 0 then Some(s[|s| + i])
    else None
  }

  function Min(a: int, b: int): int { if a <= b then a else b }

  /** Python's `s[lo:hi]` for non-negative bounds: both are clamped to `len(s)`. */
  function PySlice<T>(s: seq<T>, lo: nat, hi: nat): (r: seq<T>)
    ensures lo <= hi ==> |r| == Min(hi, |s|) - Min(lo, |s|)
    ensures forall k :: 0 <= k < |r| ==> lo + k < |s| && r[k] == s[lo + k]
  {
    var a := Min(lo, |s|);
    var b := Min(hi, |s|);
    if a <= b then s[a..b] else []
  }
}
