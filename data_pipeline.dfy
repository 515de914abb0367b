/**
 * The data pipeline's list and table logic: splitting the ticker list into
 * download chunks, normalising ticker symbols, downloading one chunk with a
 * bounded number of attempts, merging the downloaded frames, and reporting the
 * requested tickers that came back without prices.  The downloads themselves
 * are a parameter: `outcome(c, k)` is what the `k`-th download call of chunk
 * `c` gives back.
 */
module DataPipeline {

  import opened Wrappers
  import Sorting
  import Text

  const DefaultChunk: int := 25
  const DefaultRetries: int := 3
  /** How many missing tickers the report names. */
  const PreviewLimit: nat := 10

  function Min(a: int, b: int): int
  {
    if a <= b then a else b
  }

  // ---------------------------------------------------------------------
  // Chunks

  /** The pieces of `items`, `size` at a time. */
  function Chunks<T>(items: seq<T>, size: nat): seq<seq<T>>
    requires size > 0
    decreases |items|
  {
    if items == [] then []
    else if |items| <= size then [items]
    else [items[..size]] + Chunks(items[size..], size)
  }

  /** Raised by `range` when asked for a step of zero. */
  datatype ChunkError = ZeroStep

  /** `_chunked(items, size)`: the slices `items[i:i + size]` for `i` in
      `range(0, len(items), size)`.  A step of zero is an error and a
      negative step gives an empty range, so no chunks. */
  function Chunked<T>(items: seq<T>, size: int): (r: Result<seq<seq<T>>, ChunkError>)
    ensures r.Failure? <==> size == 0
    ensures size < 0 ==> r == Success([])
  {
    if size == 0 then Failure(ZeroStep)
    else if size < 0 then Success([])
    else Success(Chunks(items, size))
  }

  /** The concatenation of a list of lists. */
  function Concat<T>(parts: seq<seq<T>>): seq<T>
  {
    if parts == [] then [] else parts[0] + Concat(parts[1..])
  }

  /** Putting the chunks back together gives the list again. */
  lemma {:induction false} ChunksConcat<T>(items: seq<T>, size: nat)
    requires size > 0
    ensures Concat(Chunks(items, size)) == items
    decreases |items|
  {
    if items != [] && |items| > size {
      ChunksConcat(items[size..], size);
      assert items == items[..size] + items[size..];
    }
  }

  /** Every chunk is non-empty and at most `size` long, and every chunk but
      the last is exactly `size` long. */
  lemma {:induction false} ChunksSizes<T>(items: seq<T>, size: nat)
    requires size > 0
    ensures forall j :: 0 <= j < |Chunks(items, size)| ==> 1 <= |Chunks(items, size)[j]| <= size
    ensures forall j :: 0 <= j < |Chunks(items, size)| - 1 ==> |Chunks(items, size)[j]| == size
    decreases |items|
  {
    if items != [] && |items| > size {
      ChunksSizes(items[size..], size);
      var cs := Chunks(items, size);
      assert forall j :: 1 <= j < |cs| ==> cs[j] == Chunks(items[size..], size)[j - 1];
    }
  }

  /** There are no chunks exactly when there are no items, and otherwise
      just enough chunks of `size` to hold the items. */
  lemma {:induction false} ChunksBound<T>(items: seq<T>, size: nat)
    requires size > 0
    ensures |Chunks(items, size)| == 0 <==> items == []
    ensures (|Chunks(items, size)| - 1) * size < |items| <= |Chunks(items, size)| * size
    decreases |items|
  {
    if items != [] && |items| > size {
      var m := |Chunks(items[size..], size)|;
      ChunksBound(items[size..], size);
      assert (m + 1) * size == m * size + size;
    }
  }

  /** Hence there are `ceil(len(items) / size)` chunks. */
  lemma ChunksCount<T>(items: seq<T>, size: nat)
    requires size > 0
    ensures |Chunks(items, size)| == (|items| + size - 1) / size
  {
    var m := |Chunks(items, size)|;
    ChunksBound(items, size);
    assert m * size == (m - 1) * size + size;
    DivOf(|items| + size - 1, size, m, |items| + size - 1 - m * size);
  }

  /** Division recovers the quotient of a multiple plus a remainder. */
  lemma DivOf(a: int, d: nat, q: int, m: int)
    requires d > 0 && a == q * d + m && 0 <= m < d
    ensures a / d == q
  {
    var q', m' := a / d, a % d;
    var e := q' - q;
    assert e * d == m - m' by {
      assert q' * d + m' == q * d + m;
      assert e * d == q' * d - q * d;
    }
    if e > 0 {
      MulAtLeast(e, d);
    } else if e < 0 {
      assert (-e) * d == -(e * d);
      MulAtLeast(-e, d);
    }
  }

  lemma MulAtLeast(e: int, d: nat)
    requires e >= 1
    ensures e * d >= d
  {
    assert e * d == (e - 1) * d + d;
  }

  /** Chunk `j` is the slice of `items` from `j * size` to `(j + 1) * size`,
      cut short at the end of the list. */
  lemma {:induction false} ChunkAt<T>(items: seq<T>, size: nat, j: nat)
    requires size > 0 && j < |Chunks(items, size)|
    ensures j * size < |items|
    ensures Chunks(items, size)[j] == items[j * size .. Min((j + 1) * size, |items|)]
    decreases |items|
  {
    if j > 0 {
      var rest := items[size..];
      assert Chunks(items, size)[j] == Chunks(rest, size)[j - 1];
      var lo, hi := (j - 1) * size, Min(j * size, |rest|);
      ChunkAt(rest, size, j - 1);
      assert lo + size == j * size;
      assert j * size + size == (j + 1) * size;
      assert hi + size == Min((j + 1) * size, |items|);
      assert rest[lo..hi] == items[lo + size .. hi + size];
    } else {
      assert j * size == 0 && (j + 1) * size == size;
    }
  }

  // ---------------------------------------------------------------------
  // Symbols

  /** `s` with every `from` replaced by `to`: no `from` is left, nothing
      else changes, and a string without `from` comes back unchanged. */
  function ReplaceChar(s: string, from: char, to: char): (r: string)
    ensures |r| == |s|
    ensures forall i :: 0 <= i < |s| ==> r[i] == (if s[i] == from then to else s[i])
    ensures from != to ==> from !in r
    ensures from !in s ==> r == s
    ensures forall c :: c in r ==> c == to || (c in s && c != from)
  {
    seq(|s|, i requires 0 <= i < |s| => if s[i] == from then to else s[i])
  }

  /** A constituent's symbol as the pipeline stores it: class-share dots
      become dashes (`BRK.B` is `BRK-B`) and letters are upper case. */
  function NormaliseSymbol(s: string): string
  {
    Text.Upper(ReplaceChar(s, '.', '-'))
  }

  lemma NormaliseSymbolSpec(s: string)
    ensures var r := NormaliseSymbol(s);
      && |r| == |s|
      && (forall i :: 0 <= i < |s| ==> r[i] == (if s[i] == '.' then '-' else Text.UpperChar(s[i])))
      && '.' !in r
      && Text.IsUpper(r)
  {
    var r := NormaliseSymbol(s);
    Text.UpperIsUpper(ReplaceChar(s, '.', '-'));
    forall i | 0 <= i < |r| ensures r[i] != '.' {
      assert r[i] == Text.UpperChar(ReplaceChar(s, '.', '-')[i]);
    }
  }

  /** A normalised symbol is left as it is. */
  lemma NormaliseSymbolIdempotent(s: string)
    ensures NormaliseSymbol(NormaliseSymbol(s)) == NormaliseSymbol(s)
  {
    var r := NormaliseSymbol(s);
    NormaliseSymbolSpec(s);
    assert ReplaceChar(r, '.', '-') == r;
    Text.UpperOfUpper(r);
  }

  // ---------------------------------------------------------------------
  // Downloading one chunk

  /** One long-format price row after the reshape: `adjusted` is `None`
      where the adjusted close is missing. */
  datatype PriceRow = PriceRow(
    symbol: string,
    date: int,
    open: real,
    high: real,
    low: real,
    close: real,
    adjusted: Option<real>,
    volume: real)

  /** What a download call gives back: an exception, or a (possibly empty)
      frame of rows. */
  datatype Outcome = Raised | Delivered(rows: seq<PriceRow>)

  /** A call that does not count as a download: it raised, or the frame is
      empty. */
  predicate Failed(o: Outcome)
  {
    o.Raised? || o.rows == []
  }

  /** The price-table order: by symbol, then by date. */
  predicate RowLe(a: PriceRow, b: PriceRow)
  {
    || (Text.StrLe(a.symbol, b.symbol) && a.symbol != b.symbol)
    || (a.symbol == b.symbol && a.date <= b.date)
  }

  lemma RowLeIsPreorder()
    ensures Sorting.TotalPreorder(RowLe)
  {
    forall a, b ensures RowLe(a, b) || RowLe(b, a) {
      Text.StrLeTotal(a.symbol, b.symbol);
    }
    forall a, b, c | RowLe(a, b) && RowLe(b, c) ensures RowLe(a, c) {
      if a.symbol != b.symbol && b.symbol != c.symbol {
        Text.StrLeTransitive(a.symbol, b.symbol, c.symbol);
        if a.symbol == c.symbol {
          Text.StrLeAntisymmetric(a.symbol, b.symbol);
        }
      }
    }
  }

  /** The rows of `rows` with an adjusted close, in order. */
  function Priced(rows: seq<PriceRow>): (r: seq<PriceRow>)
    ensures |r| <= |rows|
  {
    if rows == [] then []
    else (if rows[0].adjusted.Some? then [rows[0]] else []) + Priced(rows[1..])
  }

  /** A delivered frame as it is kept: sorted by symbol and date, then
      without the rows that have no adjusted close. */
  function Prepared(rows: seq<PriceRow>): seq<PriceRow>
  {
    Priced(Sorting.InsertionSort(rows, RowLe))
  }

  lemma {:induction false} PricedSpec(rows: seq<PriceRow>)
    ensures forall x :: x in Priced(rows) <==> x in rows && x.adjusted.Some?
    ensures Sorting.Sorted(rows, RowLe) ==> Sorting.Sorted(Priced(rows), RowLe)
  {
    if rows != [] {
      PricedSpec(rows[1..]);
      if Sorting.Sorted(rows, RowLe) {
        assert Sorting.Sorted(rows[1..], RowLe) by {
          forall i, j | 0 <= i < j < |rows[1..]| ensures RowLe(rows[1..][i], rows[1..][j]) {
            assert rows[1..][i] == rows[i + 1] && rows[1..][j] == rows[j + 1];
          }
        }
        var t := Priced(rows[1..]);
        forall y | y in t ensures RowLe(rows[0], y) {
          var k :| 0 <= k < |rows[1..]| && rows[1..][k] == y;
          assert rows[k + 1] == y;
        }
      }
    }
  }

  /** A kept frame is in symbol-and-date order, holds only rows with an
      adjusted close, and holds every such row of the delivery. */
  lemma PreparedSpec(rows: seq<PriceRow>)
    ensures Sorting.Sorted(Prepared(rows), RowLe)
    ensures forall x :: x in Prepared(rows) <==> x in rows && x.adjusted.Some?
  {
    var sorted := Sorting.InsertionSort(rows, RowLe);
    RowLeIsPreorder();
    Sorting.InsertionSortSorted(rows, RowLe);
    PricedSpec(sorted);
    forall x ensures x in sorted <==> x in rows {
      assert x in sorted <==> x in multiset(sorted);
      assert x in rows <==> x in multiset(rows);
    }
  }

  /** The first call of chunk `c` from call `k` on that does not fail, or
      `maxRetries` when all calls up to the limit fail. */
  function FirstCall(outcome: (nat, nat) -> Outcome, c: nat, k: nat, maxRetries: int): (i: nat)
    ensures k <= i
    ensures i < maxRetries ==> !Failed(outcome(c, i))
    ensures i > k ==> i <= maxRetries
    ensures forall m :: k <= m < i ==> Failed(outcome(c, m))
    decreases maxRetries - k
  {
    if k >= maxRetries || !Failed(outcome(c, k)) then k
    else FirstCall(outcome, c, k + 1, maxRetries)
  }

  /** The frame kept for chunk `c`: the prepared delivery of its first call
      that does not fail, if that call is within the limit. */
  function ChunkFrame(outcome: (nat, nat) -> Outcome, c: nat, maxRetries: int): Option<seq<PriceRow>>
  {
    var i := FirstCall(outcome, c, 0, maxRetries);
    if i < maxRetries then Some(Prepared(outcome(c, i).rows)) else None
  }

  /** 2 to the power `k`. */
  function Pow2(k: nat): (p: nat)
    ensures p >= 1
  {
    if k == 0 then 1 else 2 * Pow2(k - 1)
  }

  /** The delay after the `i`-th failed call (counting from zero):
      `pause * 2 ** (i + 1)` seconds. */
  function Backoff(pause: real, i: nat): real
  {
    pause * (Pow2(i + 1) as real)
  }

  /** The retry loop of chunk `c`: call the download at most `maxRetries`
      times, back off `pause * 2 ** attempt` seconds after each failed call,
      and keep the prepared frame of the first delivery.  `calls` is the
      number of download calls made and `waits` the back-off delays, in
      order. */
  method FetchChunk(outcome: (nat, nat) -> Outcome, c: nat, maxRetries: int, pause: real)
    returns (frame: Option<seq<PriceRow>>, calls: nat, waits: seq<real>)
    ensures frame == ChunkFrame(outcome, c, maxRetries)
    ensures calls <= (if maxRetries > 0 then maxRetries else 0)
    ensures frame.None? ==> calls == (if maxRetries > 0 then maxRetries else 0)
    ensures frame.Some? ==> 1 <= calls && !Failed(outcome(c, calls - 1))
    ensures forall i :: 0 <= i < |waits| ==> Failed(outcome(c, i))
    ensures |waits| == (if frame.Some? then calls - 1 else calls)
    ensures forall i :: 0 <= i < |waits| ==> waits[i] == Backoff(pause, i)
  {
    var attempt: nat := 0;
    waits := [];
    while attempt < maxRetries
      invariant attempt <= (if maxRetries > 0 then maxRetries else 0)
      invariant |waits| == attempt
      invariant forall i :: 0 <= i < attempt ==> Failed(outcome(c, i))
      invariant forall i :: 0 <= i < attempt ==> waits[i] == Backoff(pause, i)
      invariant FirstCall(outcome, c, 0, maxRetries) == FirstCall(outcome, c, attempt, maxRetries)
      decreases maxRetries - attempt
    {
      var data := outcome(c, attempt);
      if data.Raised? || data.rows == [] {
        assert FirstCall(outcome, c, attempt, maxRetries) == FirstCall(outcome, c, attempt + 1, maxRetries);
        attempt := attempt + 1;
        var wait := pause * (Pow2(attempt) as real);
        assert wait == Backoff(pause, attempt - 1);
        waits := waits + [wait];
        continue;
      }
      assert FirstCall(outcome, c, attempt, maxRetries) == attempt;
      frame := Some(Prepared(data.rows));
      calls := attempt + 1;
      return;
    }
    assert FirstCall(outcome, c, attempt, maxRetries) == attempt;
    frame := None;
    calls := attempt;
  }

  // ---------------------------------------------------------------------
  // Merging the frames

  predicate SameKey(a: PriceRow, b: PriceRow)
  {
    a.symbol == b.symbol && a.date == b.date
  }

  /** Row `j` is the last row of `rows` with its symbol and date. */
  predicate IsLast(rows: seq<PriceRow>, j: nat)
    requires j < |rows|
  {
    forall k :: j < k < |rows| ==> !SameKey(rows[k], rows[j])
  }

  /** No two rows share a symbol and a date. */
  predicate KeysDistinct(rows: seq<PriceRow>)
  {
    forall i, j :: 0 <= i < j < |rows| ==> !SameKey(rows[i], rows[j])
  }

  /** `drop_duplicates(subset=["symbol", "date"], keep="last")`: of the rows
      sharing a symbol and a date only the last stays, and the kept rows keep
      their order. */
  function KeepLast(rows: seq<PriceRow>): (r: seq<PriceRow>)
    ensures |r| <= |rows|
  {
    if rows == [] then []
    else if Superseded(rows) then KeepLast(rows[1..])
    else [rows[0]] + KeepLast(rows[1..])
  }

  /** Row `rows[0]` has a later row with its symbol and date. */
  predicate Superseded(rows: seq<PriceRow>)
    requires rows != []
  {
    exists k :: 1 <= k < |rows| && SameKey(rows[k], rows[0])
  }

  /** The rows `KeepLast` keeps are rows of the input. */
  lemma {:induction false} KeepLastSubset(rows: seq<PriceRow>)
    ensures forall x :: x in KeepLast(rows) ==> x in rows
  {
    if rows != [] {
      KeepLastSubset(rows[1..]);
    }
  }

  /** No two kept rows share a symbol and a date. */
  lemma {:induction false} KeepLastDistinct(rows: seq<PriceRow>)
    ensures KeysDistinct(KeepLast(rows))
  {
    if rows != [] {
      var tail := rows[1..];
      KeepLastDistinct(tail);
      KeepLastSubset(tail);
      var t := KeepLast(tail);
      if !Superseded(rows) {
        var r := [rows[0]] + t;
        assert KeepLast(rows) == r;
        forall i, j | 0 <= i < j < |r| ensures !SameKey(r[i], r[j]) {
          if i == 0 {
            assert r[j] == t[j - 1] && t[j - 1] in t;
            var k :| 0 <= k < |tail| && tail[k] == r[j];
            assert rows[k + 1] == r[j];
          } else {
            assert r[i] == t[i - 1] && r[j] == t[j - 1];
          }
        }
      }
    }
  }

  /** The last row of every symbol and date is kept. */
  lemma {:induction false} KeepLastComplete(rows: seq<PriceRow>)
    ensures forall j :: 0 <= j < |rows| && IsLast(rows, j) ==> rows[j] in KeepLast(rows)
  {
    if rows != [] {
      var tail := rows[1..];
      KeepLastComplete(tail);
      forall j | 0 <= j < |rows| && IsLast(rows, j) ensures rows[j] in KeepLast(rows) {
        if j > 0 {
          assert tail[j - 1] == rows[j];
          assert IsLast(tail, j - 1) by {
            forall k | j - 1 < k < |tail| ensures !SameKey(tail[k], tail[j - 1]) {
              assert tail[k] == rows[k + 1];
            }
          }
        } else {
          assert !Superseded(rows);
        }
      }
    }
  }

  /** The combined price table: the frames one after another, duplicates
      dropped keeping the last, sorted by symbol and date. */
  function Combined(frames: seq<seq<PriceRow>>): seq<PriceRow>
  {
    Sorting.InsertionSort(KeepLast(Concat(frames)), RowLe)
  }

  /** The combined table is in symbol-and-date order, has one row per symbol
      and date, and that row is the last one downloaded for them. */
  lemma CombinedSpec(frames: seq<seq<PriceRow>>)
    ensures Sorting.Sorted(Combined(frames), RowLe)
    ensures KeysDistinct(Combined(frames))
    ensures forall x :: x in Combined(frames) ==> x in Concat(frames)
    ensures forall j :: 0 <= j < |Concat(frames)| && IsLast(Concat(frames), j) ==>
      Concat(frames)[j] in Combined(frames)
  {
    var kept := KeepLast(Concat(frames));
    var r := Combined(frames);
    KeepLastSubset(Concat(frames));
    KeepLastDistinct(Concat(frames));
    KeepLastComplete(Concat(frames));
    RowLeIsPreorder();
    Sorting.InsertionSortSorted(kept, RowLe);
    forall x ensures x in r <==> x in kept {
      assert x in r <==> x in multiset(r);
      assert x in kept <==> x in multiset(kept);
    }
    KeysDistinctPermutation(kept, r);
  }

  /** A rearrangement of a list without repeated keys has none either. */
  lemma KeysDistinctPermutation(kept: seq<PriceRow>, r: seq<PriceRow>)
    requires KeysDistinct(kept) && multiset(r) == multiset(kept)
    ensures KeysDistinct(r)
  {
    assert Sorting.Distinct(kept) by {
      forall a, b | 0 <= a < b < |kept| ensures kept[a] != kept[b] {
        assert !SameKey(kept[a], kept[b]);
      }
    }
    Sorting.DistinctPermutation(kept, r);
    forall i, j | 0 <= i < j < |r| ensures !SameKey(r[i], r[j]) {
      assert r[i] != r[j];
      assert r[i] in multiset(kept) && r[j] in multiset(kept);
      var a :| 0 <= a < |kept| && kept[a] == r[i];
      var b :| 0 <= b < |kept| && kept[b] == r[j];
      if a < b {
        assert !SameKey(kept[a], kept[b]);
      } else {
        assert !SameKey(kept[b], kept[a]);
      }
    }
  }

  // ---------------------------------------------------------------------
  // The whole download

  datatype DownloadError = BadChunkSize | NoPriceData

  /** The frames kept for the first `n` chunks, in chunk order. */
  function Frames(outcome: (nat, nat) -> Outcome, n: nat, maxRetries: int): seq<seq<PriceRow>>
  {
    if n == 0 then []
    else
      var last := match ChunkFrame(outcome, n - 1, maxRetries) case Some(f) => [f] case None => [];
      Frames(outcome, n - 1, maxRetries) + last
  }

  /** `download_ohlcv_history`: every chunk is fetched with its own retry
      loop; a chunk whose attempts all fail is given up on; no frame at all
      is an error, otherwise the frames are combined. */
  method DownloadHistory(symbols: seq<string>, chunkSize: int, maxRetries: int, pause: real,
                         outcome: (nat, nat) -> Outcome)
    returns (r: Result<seq<PriceRow>, DownloadError>)
    ensures chunkSize == 0 ==> r == Failure(BadChunkSize)
    ensures chunkSize != 0 ==>
      var chunks := Chunked(symbols, chunkSize).value;
      var frames := Frames(outcome, |chunks|, maxRetries);
      && (r.Failure? <==> frames == [])
      && (r.Failure? ==> r.error == NoPriceData)
      && (r.Success? ==> r.value == Combined(frames))
  {
    var chunked := Chunked(symbols, chunkSize);
    if chunked.Failure? {
      return Failure(BadChunkSize);
    }
    var chunks := chunked.value;
    var frames: seq<seq<PriceRow>> := [];
    for c := 0 to |chunks|
      invariant frames == Frames(outcome, c, maxRetries)
    {
      var frame, calls, waits := FetchChunk(outcome, c, maxRetries, pause);
      if frame.Some? {
        frames := frames + [frame.value];
      }
    }
    if frames == [] {
      return Failure(NoPriceData);
    }
    r := Success(Combined(frames));
  }

  // ---------------------------------------------------------------------
  // Missing tickers

  /** `requested[:limit]`, with Python's reading of a negative limit as a
      count from the end. */
  function Limited(requested: seq<string>, limit: Option<int>): (r: seq<string>)
    ensures |r| <= |requested| && r == requested[..|r|]
    ensures limit.None? ==> r == requested
    ensures limit.Some? && limit.value >= 0 ==> |r| == Min(limit.value, |requested|)
    ensures limit.Some? && limit.value < 0 ==> |r| + Min(-limit.value, |requested|) == |requested|
    ensures limit == Some(0) ==> r == []
    ensures limit.Some? && limit.value >= |requested| ==> r == requested
  {
    match limit
    case None => requested
    case Some(n) =>
      if n >= 0 then requested[..Min(n, |requested|)]
      else requested[..if |requested| + n > 0 then |requested| + n else 0]
  }

  /** The distinct elements of `s`, each at its first position. */
  function Unique(s: seq<string>): (r: seq<string>)
    ensures Sorting.Distinct(r)
    ensures forall x :: x in r <==> x in s
  {
    if s == [] then []
    else
      var t := Unique(s[..|s| - 1]);
      var x := s[|s| - 1];
      assert s == s[..|s| - 1] + [x];
      if x in t then t else t + [x]
  }

  /** The requested tickers that do not appear among the downloaded ones. */
  function Absent(requested: seq<string>, downloaded: seq<string>): (r: seq<string>)
    ensures forall x :: x in r <==> x in requested && x !in downloaded
  {
    if requested == [] then []
    else
      assert requested == [requested[0]] + requested[1..];
      (if requested[0] in downloaded then [] else [requested[0]]) + Absent(requested[1..], downloaded)
  }

  /** `sorted(set(requested) - set(downloaded))`. */
  function Missing(requested: seq<string>, downloaded: seq<string>): seq<string>
  {
    Sorting.InsertionSort(Unique(Absent(requested, downloaded)), Text.StrLe)
  }

  lemma StrLeIsPreorder()
    ensures Sorting.TotalPreorder(Text.StrLe)
  {
    forall a, b ensures Text.StrLe(a, b) || Text.StrLe(b, a) {
      Text.StrLeTotal(a, b);
    }
    forall a, b, c | Text.StrLe(a, b) && Text.StrLe(b, c) ensures Text.StrLe(a, c) {
      Text.StrLeTransitive(a, b, c);
    }
  }

  /** The missing list names every requested ticker without prices, once,
      in increasing order, and nothing else. */
  lemma MissingSpec(requested: seq<string>, downloaded: seq<string>)
    ensures forall x :: x in Missing(requested, downloaded) <==> x in requested && x !in downloaded
    ensures Sorting.Distinct(Missing(requested, downloaded))
    ensures Sorting.Sorted(Missing(requested, downloaded), Text.StrLe)
  {
    var u := Unique(Absent(requested, downloaded));
    var m := Missing(requested, downloaded);
    StrLeIsPreorder();
    Sorting.InsertionSortSorted(u, Text.StrLe);
    Sorting.DistinctPermutation(u, m);
    forall x ensures x in m <==> x in u {
      assert x in m <==> x in multiset(m);
      assert x in u <==> x in multiset(u);
    }
  }

  /** Two lists with the same members are empty together. */
  lemma EmptyTogether(a: seq<string>, b: seq<string>)
    requires forall x :: x in a <==> x in b
    ensures a == [] <==> b == []
  {
    if a != [] {
      assert a[0] in a;
    }
    if b != [] {
      assert b[0] in b;
    }
  }

  /** A list of distinct strings in increasing order is fixed by its
      elements: there is one way to sort a set. */
  lemma {:induction false} SortedSetUnique(a: seq<string>, b: seq<string>)
    requires Sorting.Distinct(a) && Sorting.Sorted(a, Text.StrLe)
    requires Sorting.Distinct(b) && Sorting.Sorted(b, Text.StrLe)
    requires forall x :: x in a <==> x in b
    ensures a == b
    decreases |a|
  {
    EmptyTogether(a, b);
    if a != [] {
      assert a[0] in b && b[0] in a;
      var i :| 0 <= i < |b| && b[i] == a[0];
      var j :| 0 <= j < |a| && a[j] == b[0];
      if 0 < i && 0 < j {
        assert Text.StrLe(b[0], b[i]) && Text.StrLe(a[0], a[j]);
        Text.StrLeAntisymmetric(a[0], b[0]);
      }
      assert a[0] == b[0];
      var a', b' := a[1..], b[1..];
      assert a == [a[0]] + a' && b == [b[0]] + b';
      forall x ensures x in a' <==> x in b' {
        if x in a' {
          var k :| 0 <= k < |a'| && a'[k] == x;
          assert a[k + 1] == x && x != a[0] && x in a;
          var n :| 0 <= n < |b| && b[n] == x;
          assert n != 0 && b'[n - 1] == x;
        }
        if x in b' {
          var k :| 0 <= k < |b'| && b'[k] == x;
          assert b[k + 1] == x && x != b[0] && x in b;
          var n :| 0 <= n < |a| && a[n] == x;
          assert n != 0 && a'[n - 1] == x;
        }
      }
      assert Sorting.Distinct(a') && Sorting.Sorted(a', Text.StrLe) by {
        forall p, q | 0 <= p < q < |a'| ensures a'[p] != a'[q] && Text.StrLe(a'[p], a'[q]) {
          assert a'[p] == a[p + 1] && a'[q] == a[q + 1];
        }
      }
      assert Sorting.Distinct(b') && Sorting.Sorted(b', Text.StrLe) by {
        forall p, q | 0 <= p < q < |b'| ensures b'[p] != b'[q] && Text.StrLe(b'[p], b'[q]) {
          assert b'[p] == b[p + 1] && b'[q] == b[q + 1];
        }
      }
      SortedSetUnique(a', b');
      assert a == [a[0]] + a' && b == [b[0]] + b';
    }
  }

  /** `Missing` is the sorted listing of the set difference: any list with
      the same three properties is this one. */
  lemma MissingIsSortedSetDifference(requested: seq<string>, downloaded: seq<string>, other: seq<string>)
    requires forall x :: x in other <==> x in requested && x !in downloaded
    requires Sorting.Distinct(other) && Sorting.Sorted(other, Text.StrLe)
    ensures other == Missing(requested, downloaded)
  {
    MissingSpec(requested, downloaded);
    SortedSetUnique(other, Missing(requested, downloaded));
  }

  /** The downloaded symbols: `sorted(price_df["symbol"].unique())`. */
  function Downloaded(prices: seq<PriceRow>): (r: seq<string>)
    ensures forall x :: x in r <==> exists p :: p in prices && p.symbol == x
  {
    var symbols := seq(|prices|, i requires 0 <= i < |prices| => prices[i].symbol);
    assert forall x :: x in symbols <==> exists p :: p in prices && p.symbol == x by {
      forall x | x in symbols ensures exists p :: p in prices && p.symbol == x {
        var i :| 0 <= i < |symbols| && symbols[i] == x;
        assert prices[i] in prices;
      }
      forall x | exists p :: p in prices && p.symbol == x ensures x in symbols {
        var p :| p in prices && p.symbol == x;
        var i :| 0 <= i < |prices| && prices[i] == p;
        assert symbols[i] == x;
      }
    }
    var r := Sorting.InsertionSort(Unique(symbols), Text.StrLe);
    assert forall x :: x in r <==> x in multiset(r);
    assert forall x :: x in Unique(symbols) <==> x in multiset(Unique(symbols));
    r
  }

  // ---------------------------------------------------------------------
  // The missing-ticker report

  /** The tickers the report names: the first `PreviewLimit` missing ones. */
  function Shown(missing: seq<string>): (r: seq<string>)
    ensures |r| == Min(PreviewLimit, |missing|)
    ensures r == missing[..|r|]
    ensures |missing| <= PreviewLimit ==> r == missing
  {
    missing[..Min(PreviewLimit, |missing|)]
  }

  /** The fields of the message: the number of missing tickers, the ones
      shown joined by commas, and "..." when some are not shown. */
  datatype MissingReport = MissingReport(count: nat, preview: string, suffix: string)

  /** Nothing is reported when no ticker is missing. */
  function Report(missing: seq<string>): Option<MissingReport>
  {
    if missing == [] then None
    else Some(MissingReport(|missing|, Text.Join(Shown(missing), ", "),
                            if |missing| > PreviewLimit then "..." else ""))
  }

  /** A report is made exactly when tickers are missing; it counts all of
      them, names all of them when there are at most ten, and ends with
      "..." exactly when there are more. */
  lemma ReportSpec(missing: seq<string>)
    ensures Report(missing).Some? <==> missing != []
    ensures Report(missing).Some? ==>
      && Report(missing).value.count == |missing|
      && (Report(missing).value.suffix == "..." <==> |missing| > PreviewLimit)
      && (Report(missing).value.suffix == "" <==> |missing| <= PreviewLimit)
      && (|missing| <= PreviewLimit ==> Report(missing).value.preview == Text.Join(missing, ", "))
      && (|missing| == 1 ==> Report(missing).value.preview == missing[0])
  {
  }
}
