/** `get_time_for_dests`: cut the destination list into batches the routing service
    accepts, send one route-matrix request per batch and collect a
    `(latitude, longitude, seconds)` tuple for every duration the service reports. */
module Fetch {
  import opened Types

  /** GMAPS_CHUNK_SIZE: the most destinations one request may carry. */
  const ChunkSize: nat := 99

  /** One element of the decoded JSON response list; the service may leave out
      either field. A non-200 reply is decoded by the source as well and is iterated
      the same way; its elements carry neither field. */
  datatype Entry = Entry(duration: Option<string>, destinationIndex: Option<int>)

  /** The routing service: the decoded response to one request, given the origin
      and the batch of destinations (travel mode and departure time are fixed). */
  type Provider = (Coord, seq<Coord>) -> seq<Entry>

  /** `math.ceil(len(destinations) / GMAPS_CHUNK_SIZE)`. */
  function NumChunks(n: nat): nat
  {
    (n + ChunkSize - 1) / ChunkSize
  }

  /** Batch `i`: `destinations[i * 99 : (i + 1) * 99]`. */
  function Chunk(dests: seq<Coord>, i: nat): seq<Coord>
  {
    PySlice(dests, i * ChunkSize, (i + 1) * ChunkSize)
  }

  /** Batches `0 .. n-1`, concatenated. */
  function Batched(dests: seq<Coord>, n: nat): seq<Coord>
  {
    if n == 0 then [] else Batched(dests, n - 1) + Chunk(dests, n - 1)
  }

  lemma {:induction false} BatchedPrefix(dests: seq<Coord>, n: nat)
    ensures Batched(dests, n) == dests[..Min(n * ChunkSize, |dests|)]
  {
    if n > 0 {
      BatchedPrefix(dests, n - 1);
      var lo, hi := Min((n - 1) * ChunkSize, |dests|), Min(n * ChunkSize, |dests|);
      assert Chunk(dests, n - 1) == dests[lo..hi];
      assert dests[..lo] + dests[lo..hi] == dests[..hi];
    }
  }

  /** The batches partition the destinations: each holds 1 to 99 of them, and
      together, in order, they are exactly the destination list. */
  lemma ChunksPartition(dests: seq<Coord>)
    ensures Batched(dests, NumChunks(|dests|)) == dests
    ensures forall i :: 0 <= i < NumChunks(|dests|) ==> 1 <= |Chunk(dests, i)| <= ChunkSize
  {
    BatchedPrefix(dests, NumChunks(|dests|));
    assert dests[..|dests|] == dests;
  }

  /** Destination `p` travels in batch `p / 99`, at position `p % 99`. */
  lemma ChunkOfPosition(dests: seq<Coord>, p: nat)
    requires p < |dests|
    ensures p / ChunkSize < NumChunks(|dests|)
    ensures p % ChunkSize < |Chunk(dests, p / ChunkSize)|
    ensures Chunk(dests, p / ChunkSize)[p % ChunkSize] == dests[p]
  {
  }

  // ---------------------------------------------------------------- durations

  predicate IsDigit(c: char) { '0' <= c <= '9' }

  predicate AllDigits(s: string) { forall i :: 0 <= i < |s| ==> IsDigit(s[i]) }

  /** The value of a string of decimal digits, most significant first. */
  function DigitsValue(s: string): nat
    requires AllDigits(s)
  {
    if s == [] then 0 else DigitsValue(s[..|s| - 1]) * 10 + (s[|s| - 1] as int - '0' as int)
  }

  /** Python's `int(s)` on ASCII decimal text with an optional sign. */
  function ParseInt(s: string): (r: Option<int>)
    ensures r.Some? <==> (s != [] && AllDigits(s)) || (|s| > 1 && (s[0] == '+' || s[0] == '-') && AllDigits(s[1..]))
    ensures AllDigits(s) && s != [] ==> r == Some(DigitsValue(s))
    ensures |s| > 1 && s[0] == '+' && AllDigits(s[1..]) ==> r == Some(DigitsValue(s[1..]))
    ensures |s| > 1 && s[0] == '-' && AllDigits(s[1..]) ==> r == Some(-(DigitsValue(s[1..]) as int))
  {
    if |s| > 0 && (s[0] == '+' || s[0] == '-') then
      var digits := s[1..];
      if digits != [] && AllDigits(digits) then
        Some(if s[0] == '-' then -(DigitsValue(digits) as int) else DigitsValue(digits))
      else None
    else if s != [] && AllDigits(s) then Some(DigitsValue(s))
    else None
  }

  /** `int(res["duration"][:-1])`: the unit character is dropped, the rest parsed. */
  function ParseDuration(s: string): Option<int>
  {
    ParseInt(if s == [] then s else s[..|s| - 1])
  }

  function Digit(d: nat): (c: char)
    requires d < 10
    ensures IsDigit(c) && c as int - '0' as int == d
  {
    ('0' as int + d) as char
  }

  /** `str(n)` for a non-negative integer: the text the service sends before the unit. */
  function Decimal(n: nat): (s: string)
    ensures s != [] && AllDigits(s)
  {
    if n < 10 then [Digit(n)] else Decimal(n / 10) + [Digit(n % 10)]
  }

  lemma {:induction false} DecimalValue(n: nat)
    ensures DigitsValue(Decimal(n)) == n
  {
    if n >= 10 {
      DecimalValue(n / 10);
      var s := Decimal(n);
      assert s[..|s| - 1] == Decimal(n / 10);
    }
  }

  /** Parsing drops exactly the unit: `"<n>s"` and `"-<n>s"` read back as `n` and `-n`. */
  lemma DurationRoundTrip(n: nat)
    ensures ParseDuration(Decimal(n) + "s") == Some(n)
    ensures ParseDuration("-" + Decimal(n) + "s") == Some(-(n as int))
  {
    DecimalValue(n);
    var d := Decimal(n);
    assert (d + "s")[..|d|] == d;
    var m := "-" + d + "s";
    assert m[..|m| - 1] == "-" + d;
    assert ("-" + d)[1..] == d;
  }

  // ---------------------------------------------------------------- decoding

  /** An entry is used only when it carries both a duration and a destination index. */
  predicate Complete(e: Entry)
  {
    e.duration.Some? && e.destinationIndex.Some?
  }

  /** What one response entry contributes: nothing, one tuple, or an exception. */
  datatype Decoded = Skipped | Kept(point: Timed<int>) | Failed(error: Error)

  /** The body of the loop over response entries, for one entry. */
  function DecodeEntry(chunk: seq<Coord>, e: Entry): (d: Decoded)
    ensures d.Skipped? <==> !Complete(e)
    ensures Complete(e) ==>
      (d.Kept? <==> PyIndex(chunk, e.destinationIndex.value).Some? && ParseDuration(e.duration.value).Some?)
    ensures d.Kept? ==> PyIndex(chunk, e.destinationIndex.value) == Some(d.point.Key())
    ensures d.Kept? ==> -|chunk| <= e.destinationIndex.value < |chunk|
    ensures d.Kept? && 0 <= e.destinationIndex.value ==> d.point.Key() == chunk[e.destinationIndex.value]
    ensures d.Kept? ==> d.point.Key() in chunk
    ensures d.Kept? ==> ParseDuration(e.duration.value) == Some(d.point.dur)
    ensures d.Failed? ==> d.error == (if -|chunk| <= e.destinationIndex.value < |chunk| then BadDuration else IndexOutOfRange)
  {
    if !Complete(e) then Skipped
    else match PyIndex(chunk, e.destinationIndex.value)
      case None => Failed(IndexOutOfRange)
      case Some(dest) =>
        match ParseDuration(e.duration.value)
        case None => Failed(BadDuration)
        case Some(n) => Kept(Timed(dest.lat, dest.lon, n))
  }

  /** The loop over the response entries of one batch: tuples of the kept entries,
      in response order, or the first exception raised. */
  function DecodeResponse(chunk: seq<Coord>, es: seq<Entry>): Result<seq<Timed<int>>>
  {
    if es == [] then Ok([])
    else
      match DecodeResponse(chunk, es[..|es| - 1])
      case Err(e) => Err(e)
      case Ok(acc) =>
        match DecodeEntry(chunk, es[|es| - 1])
        case Skipped => Ok(acc)
        case Failed(e) => Err(e)
        case Kept(t) => Ok(acc + [t])
  }

  function CountComplete(es: seq<Entry>): nat
  {
    if es == [] then 0 else CountComplete(es[..|es| - 1]) + (if Complete(es[|es| - 1]) then 1 else 0)
  }

  lemma {:induction false} CountCompleteBound(es: seq<Entry>)
    ensures CountComplete(es) <= |es|
  {
    if es != [] { CountCompleteBound(es[..|es| - 1]); }
  }

  /** A batch decodes without an exception exactly when no entry fails on its own,
      and an exception is the one raised by the first failing entry. */
  lemma {:induction false} DecodeResponseOk(chunk: seq<Coord>, es: seq<Entry>)
    ensures DecodeResponse(chunk, es).Ok? <==> forall j :: 0 <= j < |es| ==> !DecodeEntry(chunk, es[j]).Failed?
    ensures DecodeResponse(chunk, es).Err? ==>
      exists j :: 0 <= j < |es| && DecodeEntry(chunk, es[j]) == Failed(DecodeResponse(chunk, es).error)
        && forall i :: 0 <= i < j ==> !DecodeEntry(chunk, es[i]).Failed?
  {
    if es != [] {
      var init := es[..|es| - 1];
      DecodeResponseOk(chunk, init);
      assert forall j :: 0 <= j < |init| ==> init[j] == es[j];
    }
  }

  /** Each complete entry yields exactly one tuple and an incomplete one none; every
      tuple is the decoding of some entry, so its position is the destination the
      entry's index names in this batch. */
  lemma {:induction false} DecodeResponseShape(chunk: seq<Coord>, es: seq<Entry>)
    requires DecodeResponse(chunk, es).Ok?
    ensures |DecodeResponse(chunk, es).value| == CountComplete(es) <= |es|
    ensures forall k :: 0 <= k < |DecodeResponse(chunk, es).value| ==>
      exists j :: 0 <= j < |es| && DecodeEntry(chunk, es[j]) == Kept(DecodeResponse(chunk, es).value[k])
    ensures forall t :: t in DecodeResponse(chunk, es).value ==> t.Key() in chunk
  {
    CountCompleteBound(es);
    if es != [] {
      var init := es[..|es| - 1];
      DecodeResponseShape(chunk, init);
      var out := DecodeResponse(chunk, es).value;
      var acc := DecodeResponse(chunk, init).value;
      assert forall j :: 0 <= j < |init| ==> init[j] == es[j];
      forall k | 0 <= k < |out|
        ensures exists j :: 0 <= j < |es| && DecodeEntry(chunk, es[j]) == Kept(out[k])
      {
        if k < |acc| {
          assert out[k] == acc[k];
        } else {
          assert DecodeEntry(chunk, es[|es| - 1]) == Kept(out[k]);
        }
      }
      forall t | t in out ensures t.Key() in chunk {
        var k :| 0 <= k < |out| && out[k] == t;
      }
    }
  }

  /** Once an entry has raised, the rest of the batch does not matter. */
  lemma {:induction false} DecodeErrPersists(chunk: seq<Coord>, es: seq<Entry>, j: nat)
    requires j <= |es| && DecodeResponse(chunk, es[..j]).Err?
    ensures DecodeResponse(chunk, es) == DecodeResponse(chunk, es[..j])
  {
    if j < |es| {
      assert es[..|es| - 1][..j] == es[..j];
      DecodeErrPersists(chunk, es[..|es| - 1], j);
    } else {
      assert es[..j] == es;
    }
  }

  /** One more entry of the batch: what the loop body does with it. */
  lemma DecodeStep(chunk: seq<Coord>, es: seq<Entry>, j: nat, acc: seq<Timed<int>>)
    requires j < |es| && DecodeResponse(chunk, es[..j]) == Ok(acc)
    ensures DecodeResponse(chunk, es[..j + 1]) ==
      match DecodeEntry(chunk, es[j])
      case Skipped => Ok(acc)
      case Failed(e) => Err(e)
      case Kept(t) => Ok(acc + [t])
  {
    assert es[..j + 1][..j] == es[..j];
  }

  // ---------------------------------------------------------------- batches

  /** Batches `0 .. n-1` requested and decoded in turn; the first exception aborts. */
  function FetchChunks(start: Coord, dests: seq<Coord>, provider: Provider, n: nat): Result<seq<Timed<int>>>
  {
    if n == 0 then Ok([])
    else
      match FetchChunks(start, dests, provider, n - 1)
      case Err(e) => Err(e)
      case Ok(acc) =>
        var batch := Chunk(dests, n - 1);
        match DecodeResponse(batch, provider(start, batch))
        case Err(e) => Err(e)
        case Ok(ts) => Ok(acc + ts)
  }

  /** What `get_time_for_dests(start, destinations)` returns or raises. */
  function FetchSpec(start: Coord, dests: seq<Coord>, provider: Provider): Result<seq<Timed<int>>>
  {
    FetchChunks(start, dests, provider, NumChunks(|dests|))
  }

  lemma {:induction false} FetchErrPersists(start: Coord, dests: seq<Coord>, provider: Provider, n: nat, m: nat)
    requires n <= m && FetchChunks(start, dests, provider, n).Err?
    ensures FetchChunks(start, dests, provider, m) == FetchChunks(start, dests, provider, n)
  {
    if n < m { FetchErrPersists(start, dests, provider, n, m - 1); }
  }

  lemma FetchStep(start: Coord, dests: seq<Coord>, provider: Provider, i: nat, acc: seq<Timed<int>>)
    requires FetchChunks(start, dests, provider, i) == Ok(acc)
    ensures FetchChunks(start, dests, provider, i + 1) ==
      match DecodeResponse(Chunk(dests, i), provider(start, Chunk(dests, i)))
      case Err(e) => Err(e)
      case Ok(ts) => Ok(acc + ts)
  {
  }

  /** Every returned tuple sits on one of the destinations. */
  lemma {:induction false} FetchWithinDests(start: Coord, dests: seq<Coord>, provider: Provider, n: nat)
    requires FetchChunks(start, dests, provider, n).Ok?
    ensures forall t :: t in FetchChunks(start, dests, provider, n).value ==> t.Key() in dests
  {
    if n > 0 {
      FetchWithinDests(start, dests, provider, n - 1);
      var batch := Chunk(dests, n - 1);
      DecodeResponseShape(batch, provider(start, batch));
      forall c | c in batch ensures c in dests {
        var k :| 0 <= k < |batch| && batch[k] == c;
      }
    }
  }

  /** `get_time_for_dests`, statement by statement. */
  method GetTimeForDests(start: Coord, dests: seq<Coord>, provider: Provider)
    returns (r: Result<seq<Timed<int>>>)
    ensures r == FetchSpec(start, dests, provider)
  {
    var chunks := NumChunks(|dests|);
    var list: seq<Timed<int>> := [];
    for i := 0 to chunks
      invariant FetchChunks(start, dests, provider, i) == Ok(list)
    {
      var current := PySlice(dests, i * ChunkSize, (i + 1) * ChunkSize);
      var response := provider(start, current);
      var part := DecodeBatch(current, response);
      if part.Err? {
        r := part;
        Abort(start, dests, provider, i, list);
        return;
      }
      FetchStep(start, dests, provider, i, list);
      list := list + part.value;
    }
    r := Ok(list);
  }

  /** The loop over the entries of one response: the tuples it appends, in
      response order, or the exception it raises. */
  method DecodeBatch(current: seq<Coord>, response: seq<Entry>) returns (r: Result<seq<Timed<int>>>)
    ensures r == DecodeResponse(current, response)
  {
    var part: seq<Timed<int>> := [];
    for j := 0 to |response|
      invariant DecodeResponse(current, response[..j]) == Ok(part)
    {
      DecodeStep(current, response, j, part);
      var res := response[j];
      if !(res.duration.Some? && res.destinationIndex.Some?) {
        continue;
      }
      var dest := PyIndex(current, res.destinationIndex.value);
      if dest.None? {
        DecodeErrPersists(current, response, j + 1);
        return Err(IndexOutOfRange);
      }
      var duration := ParseDuration(res.duration.value);
      if duration.None? {
        DecodeErrPersists(current, response, j + 1);
        return Err(BadDuration);
      }
      part := part + [Timed(dest.value.lat, dest.value.lon, duration.value)];
    }
    assert response[..|response|] == response;
    return Ok(part);
  }

  /** An exception from batch `i` is what the whole call raises. */
  lemma Abort(start: Coord, dests: seq<Coord>, provider: Provider, i: nat, acc: seq<Timed<int>>)
    requires i < NumChunks(|dests|) && FetchChunks(start, dests, provider, i) == Ok(acc)
    requires DecodeResponse(Chunk(dests, i), provider(start, Chunk(dests, i))).Err?
    ensures FetchSpec(start, dests, provider) == DecodeResponse(Chunk(dests, i), provider(start, Chunk(dests, i)))
  {
    FetchStep(start, dests, provider, i, acc);
    FetchErrPersists(start, dests, provider, i + 1, NumChunks(|dests|));
  }

  // ---------------------------------------------------------------- a full answer

  /** The reply of a service that answers every destination of the batch, listed
      by index, with `secs(dest)` seconds written as `"<n>s"`. */
  function FullResponse(secs: Coord -> nat, batch: seq<Coord>): seq<Entry>
  {
    seq(|batch|, j requires 0 <= j < |batch| => Entry(Some(Decimal(secs(batch[j])) + "s"), Some(j)))
  }

  function Tagged(secs: Coord -> nat, ds: seq<Coord>): seq<Timed<int>>
  {
    seq(|ds|, p requires 0 <= p < |ds| => Timed(ds[p].lat, ds[p].lon, secs(ds[p]) as int))
  }

  lemma {:induction false} FullResponseDecodes(secs: Coord -> nat, batch: seq<Coord>, n: nat)
    requires n <= |batch|
    ensures DecodeResponse(batch, FullResponse(secs, batch)[..n]) == Ok(Tagged(secs, batch[..n]))
  {
    if n > 0 {
      var es := FullResponse(secs, batch);
      FullResponseDecodes(secs, batch, n - 1);
      DecodeStep(batch, es, n - 1, Tagged(secs, batch[..n - 1]));
      FullEntryKept(secs, batch, n - 1);
      assert batch[..n] == batch[..n - 1] + [batch[n - 1]];
      TaggedAppend(secs, batch[..n - 1], [batch[n - 1]]);
      assert Tagged(secs, [batch[n - 1]]) == [Timed(batch[n - 1].lat, batch[n - 1].lon, secs(batch[n - 1]) as int)];
    } else {
      assert FullResponse(secs, batch)[..0] == [];
      assert Tagged(secs, batch[..0]) == [];
    }
  }

  /** Entry `j` of a full answer is kept, as destination `j` with its duration. */
  lemma FullEntryKept(secs: Coord -> nat, batch: seq<Coord>, j: nat)
    requires j < |batch|
    ensures DecodeEntry(batch, FullResponse(secs, batch)[j]) == Kept(Timed(batch[j].lat, batch[j].lon, secs(batch[j]) as int))
  {
    var e := FullResponse(secs, batch)[j];
    assert e == Entry(Some(Decimal(secs(batch[j])) + "s"), Some(j));
    assert PyIndex(batch, j) == Some(batch[j]);
    DurationRoundTrip(secs(batch[j]));
    assert ParseDuration(e.duration.value) == Some(secs(batch[j]) as int);
  }

  /** With a service that answers in full, the first `n` batches bring back each of
      their destinations once, in order, carrying the service's duration for it. */
  lemma {:induction false} FetchFull(start: Coord, dests: seq<Coord>, provider: Provider, secs: Coord -> nat, n: nat)
    requires forall b {:trigger FullResponse(secs, b)} :: provider(start, b) == FullResponse(secs, b)
    ensures FetchChunks(start, dests, provider, n) == Ok(Tagged(secs, Batched(dests, n)))
  {
    if n == 0 {
      assert Tagged(secs, Batched(dests, 0)) == [];
    } else {
      FetchFull(start, dests, provider, secs, n - 1);
      FetchFullStep(start, dests, provider, secs, n);
    }
  }

  lemma FetchFullStep(start: Coord, dests: seq<Coord>, provider: Provider, secs: Coord -> nat, n: nat)
    requires n > 0
    requires forall b {:trigger FullResponse(secs, b)} :: provider(start, b) == FullResponse(secs, b)
    requires FetchChunks(start, dests, provider, n - 1) == Ok(Tagged(secs, Batched(dests, n - 1)))
    ensures FetchChunks(start, dests, provider, n) == Ok(Tagged(secs, Batched(dests, n)))
  {
    FullBatchDecodes(start, provider, secs, Chunk(dests, n - 1));
    FetchDecodedStep(start, dests, provider, secs, n);
  }

  /** One more batch that decodes to one tuple per destination extends the result. */
  lemma FetchDecodedStep(start: Coord, dests: seq<Coord>, provider: Provider, secs: Coord -> nat, n: nat)
    requires n > 0
    requires FetchChunks(start, dests, provider, n - 1) == Ok(Tagged(secs, Batched(dests, n - 1)))
    requires DecodeResponse(Chunk(dests, n - 1), provider(start, Chunk(dests, n - 1))) == Ok(Tagged(secs, Chunk(dests, n - 1)))
    ensures FetchChunks(start, dests, provider, n) == Ok(Tagged(secs, Batched(dests, n)))
  {
    var batch, before := Chunk(dests, n - 1), Batched(dests, n - 1);
    FetchStep(start, dests, provider, n - 1, Tagged(secs, before));
    TaggedAppend(secs, before, batch);
  }

  lemma TaggedAppend(secs: Coord -> nat, a: seq<Coord>, b: seq<Coord>)
    ensures Tagged(secs, a + b) == Tagged(secs, a) + Tagged(secs, b)
  {
  }

  /** A service that answers in full gives one tuple per destination of the batch. */
  lemma FullBatchDecodes(start: Coord, provider: Provider, secs: Coord -> nat, batch: seq<Coord>)
    requires forall b {:trigger FullResponse(secs, b)} :: provider(start, b) == FullResponse(secs, b)
    ensures DecodeResponse(batch, provider(start, batch)) == Ok(Tagged(secs, batch))
  {
    var es := provider(start, batch);
    assert es == FullResponse(secs, batch);
    FullResponseDecodes(secs, batch, |batch|);
    assert es[..|batch|] == es;
    assert batch[..|batch|] == batch;
  }

  /** The whole call against such a service returns one tuple per destination,
      in destination order. */
  lemma FetchFullCoverage(start: Coord, dests: seq<Coord>, provider: Provider, secs: Coord -> nat)
    requires forall b {:trigger FullResponse(secs, b)} :: provider(start, b) == FullResponse(secs, b)
    ensures FetchSpec(start, dests, provider) == Ok(Tagged(secs, dests))
  {
    FetchFull(start, dests, provider, secs, NumChunks(|dests|));
    ChunksPartition(dests);
  }
}
