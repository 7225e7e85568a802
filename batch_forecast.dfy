/** The V2 batch runner (load_and_forecast_data): every distinct
    (store, item) pair of the sales table gets its own forecast, fitted on
    exactly that pair's rows, tagged with the pair and appended to one
    combined table. The forecasting model is a parameter. */
module BatchForecast {
  import opened Wrappers

  /** One row of the sales CSV: its date as a day number. */
  datatype Sale = Sale(date: int, store: int, item: int, sales: real)

  /** A series key. */
  datatype Pair = Pair(store: int, item: int)

  /** One row of the model's prediction frame. */
  datatype ForecastRow = ForecastRow(ds: int, yhat: real, yhatLower: real, yhatUpper: real)

  /** A prediction row with the store and item columns added. */
  datatype TaggedRow = TaggedRow(ds: int, yhat: real, yhatLower: real, yhatUpper: real,
                                 store: int, item: int)

  /** Why no table is returned: the CSV is missing (the loader returns
      (None, None)), the model raised while fitting or predicting one pair,
      or there was no forecast to concatenate (an empty table). */
  datatype LoadError = FileNotFound | FitFailed(pair: Pair) | NothingToConcatenate

  /** The loader's two tables. */
  datatype Loaded = Loaded(data: seq<Sale>, forecast: seq<TaggedRow>)

  /** The forecasting model: fit on one series and predict its history plus
      the forecast horizon; None when it raises. */
  type Forecaster = seq<Sale> -> Option<seq<ForecastRow>>

  function PairOf(s: Sale): Pair
  {
    Pair(s.store, s.item)
  }

  /** The pairs that occur in the table. */
  function PairsIn(df: seq<Sale>): set<Pair>
  {
    if df == [] then {} else PairsIn(df[..|df| - 1]) + {PairOf(df[|df| - 1])}
  }

  predicate Distinct<T(==)>(s: seq<T>)
  {
    forall i, j :: 0 <= i < j < |s| ==> s[i] != s[j]
  }

  // ---------------------------------------------------------------------
  // Pair enumeration (line 33)
  // ---------------------------------------------------------------------

  /** df[['store', 'item']].drop_duplicates(): each pair once, in order of its
      first occurrence. */
  function DistinctPairs(df: seq<Sale>): (ps: seq<Pair>)
    ensures Distinct(ps)
    ensures forall p :: p in ps <==> p in PairsIn(df)
  {
    if df == [] then []
    else
      var ps' := DistinctPairs(df[..|df| - 1]);
      var p := PairOf(df[|df| - 1]);
      if p in ps' then ps' else ps' + [p]
  }

  /** First-occurrence order: the pairs of any prefix of the table are a
      prefix of the pairs of the whole table. */
  lemma {:induction false} DistinctPairsOfPrefix(df: seq<Sale>, n: nat)
    requires n <= |df|
    ensures DistinctPairs(df[..n]) <= DistinctPairs(df)
    decreases |df| - n
  {
    if n < |df| {
      var init := df[..|df| - 1];
      assert df[..n] == init[..n];
      DistinctPairsOfPrefix(init, n);
    } else {
      assert df[..n] == df;
    }
  }

  /** Consequently a pair listed before another first occurs before it. */
  lemma FirstOccurrenceOrder(df: seq<Sale>, n: nat, i: nat, j: nat)
    requires n <= |df|
    requires i < j < |DistinctPairs(df)|
    requires DistinctPairs(df)[j] in PairsIn(df[..n])
    ensures DistinctPairs(df)[i] in PairsIn(df[..n])
  {
    DistinctPairsOfPrefix(df, n);
    var pre := DistinctPairs(df[..n]);
    var k :| 0 <= k < |pre| && pre[k] == DistinctPairs(df)[j];
    assert pre[k] == DistinctPairs(df)[k];
    assert k == j;
    assert pre[i] in pre;
  }

  // ---------------------------------------------------------------------
  // Slicing one pair (line 38)
  // ---------------------------------------------------------------------

  /** The rows whose store and item both match p, in table order. */
  function Slice(df: seq<Sale>, p: Pair): (r: seq<Sale>)
    ensures forall s :: s in r ==> PairOf(s) == p
  {
    if df == [] then []
    else (if PairOf(df[0]) == p then [df[0]] else []) + Slice(df[1..], p)
  }

  /** The slice holds every matching row as often as the table does, and
      nothing else. */
  lemma {:induction false} SliceCounts(df: seq<Sale>, p: Pair)
    ensures forall s :: multiset(Slice(df, p))[s] == if PairOf(s) == p then multiset(df)[s] else 0
  {
    if df != [] {
      SliceCounts(df[1..], p);
      assert df == [df[0]] + df[1..];
    }
  }

  /** Slicing keeps the order: a slice of a concatenation is the
      concatenation of the slices. */
  lemma {:induction false} SliceAppend(a: seq<Sale>, b: seq<Sale>, p: Pair)
    ensures Slice(a + b, p) == Slice(a, p) + Slice(b, p)
  {
    if a != [] {
      assert (a + b)[0] == a[0] && (a + b)[1..] == a[1..] + b;
      SliceAppend(a[1..], b, p);
      var h := if PairOf(a[0]) == p then [a[0]] else [];
      calc {
        Slice(a + b, p);
        h + Slice(a[1..] + b, p);
        h + (Slice(a[1..], p) + Slice(b, p));
        (h + Slice(a[1..], p)) + Slice(b, p);
        Slice(a, p) + Slice(b, p);
      }
    } else {
      assert a + b == b;
    }
  }

  // ---------------------------------------------------------------------
  // Tagging and concatenation (lines 41-50)
  // ---------------------------------------------------------------------

  /** forecast['store'] = store; forecast['item'] = item. */
  function Tag(rows: seq<ForecastRow>, p: Pair): (r: seq<TaggedRow>)
    ensures |r| == |rows|
    ensures forall k :: 0 <= k < |r| ==>
      r[k].store == p.store && r[k].item == p.item &&
      r[k].ds == rows[k].ds && r[k].yhat == rows[k].yhat &&
      r[k].yhatLower == rows[k].yhatLower && r[k].yhatUpper == rows[k].yhatUpper
  {
    seq(|rows|, k requires 0 <= k < |rows| =>
      TaggedRow(rows[k].ds, rows[k].yhat, rows[k].yhatLower, rows[k].yhatUpper, p.store, p.item))
  }

  /** The forecast block of one pair: the model run on that pair's slice,
      tagged with the pair. */
  function Block(df: seq<Sale>, p: Pair, model: Forecaster): Option<seq<TaggedRow>>
  {
    match model(Slice(df, p))
    case None => None
    case Some(rows) => Some(Tag(rows, p))
  }

  /** The loop run over the pairs in order: the blocks of all pairs, or the
      first pair whose fit raised. */
  function RunPairs(df: seq<Sale>, pairs: seq<Pair>, model: Forecaster): Result<seq<seq<TaggedRow>>, Pair>
  {
    if pairs == [] then Success([])
    else
      match RunPairs(df, pairs[..|pairs| - 1], model)
      case Failure(p) => Failure(p)
      case Success(blocks) =>
        match Block(df, pairs[|pairs| - 1], model)
        case None => Failure(pairs[|pairs| - 1])
        case Some(b) => Success(blocks + [b])
  }

  /** pd.concat of a list of frames. */
  function Concat(blocks: seq<seq<TaggedRow>>): seq<TaggedRow>
  {
    if blocks == [] then [] else Concat(blocks[..|blocks| - 1]) + blocks[|blocks| - 1]
  }

  lemma {:induction false} RunPairsBlocks(df: seq<Sale>, pairs: seq<Pair>, model: Forecaster)
    requires RunPairs(df, pairs, model).Success?
    ensures |RunPairs(df, pairs, model).value| == |pairs|
    ensures forall k :: 0 <= k < |pairs| ==>
      Block(df, pairs[k], model) == Some(RunPairs(df, pairs, model).value[k])
  {
    if pairs != [] {
      var init := pairs[..|pairs| - 1];
      RunPairsBlocks(df, init, model);
    }
  }

  /** A failed run names the first pair for which the model raised. */
  lemma {:induction false} RunPairsFailure(df: seq<Sale>, pairs: seq<Pair>, model: Forecaster)
    returns (k: nat)
    requires RunPairs(df, pairs, model).Failure?
    ensures k < |pairs| && pairs[k] == RunPairs(df, pairs, model).error
    ensures Block(df, pairs[k], model).None?
    ensures forall m :: 0 <= m < k ==> Block(df, pairs[m], model).Some?
  {
    var init, last := pairs[..|pairs| - 1], pairs[|pairs| - 1];
    if RunPairs(df, init, model).Failure? {
      k := RunPairsFailure(df, init, model);
      assert forall m :: 0 <= m <= k ==> init[m] == pairs[m];
    } else {
      k := |pairs| - 1;
      RunPairsBlocks(df, init, model);
      assert forall m :: 0 <= m < k ==> init[m] == pairs[m];
    }
  }

  /** A run succeeds exactly when the model produces a forecast for every
      pair. */
  lemma RunPairsSucceeds(df: seq<Sale>, pairs: seq<Pair>, model: Forecaster)
    ensures RunPairs(df, pairs, model).Success? <==>
      forall k :: 0 <= k < |pairs| ==> Block(df, pairs[k], model).Some?
  {
    if RunPairs(df, pairs, model).Success? {
      RunPairsBlocks(df, pairs, model);
    } else {
      var k := RunPairsFailure(df, pairs, model);
    }
  }

  // ---------------------------------------------------------------------
  // The loader (lines 23-53)
  // ---------------------------------------------------------------------

  /** load_and_forecast_data: reads the table (None when the file is
      missing), fits the model once per distinct pair in order on that
      pair's rows, tags each prediction frame with its pair and concatenates
      them. */
  method LoadAndForecast(csv: Option<seq<Sale>>, model: Forecaster)
    returns (r: Result<Loaded, LoadError>, ghost fitted: seq<seq<Sale>>)
    ensures csv.None? ==> r == Failure(FileNotFound)
    ensures csv.Some? ==>
      match RunPairs(csv.value, DistinctPairs(csv.value), model)
      case Failure(p) => r == Failure(FitFailed(p))
      case Success(blocks) =>
        r == if blocks == [] then Failure(NothingToConcatenate)
             else Success(Loaded(csv.value, Concat(blocks)))
    ensures csv.Some? && r.Success? ==>
      |fitted| == |DistinctPairs(csv.value)| &&
      forall k :: 0 <= k < |fitted| ==> fitted[k] == Slice(csv.value, DistinctPairs(csv.value)[k])
  {
    fitted := [];
    if csv.None? {
      return Failure(FileNotFound), fitted;
    }
    var df := csv.value;
    var pairs := DistinctPairs(df);
    var allForecasts: seq<seq<TaggedRow>> := [];
    var k := 0;
    while k < |pairs|
      invariant 0 <= k <= |pairs|
      invariant RunPairs(df, pairs[..k], model) == Success(allForecasts)
      invariant |fitted| == k
      invariant forall m :: 0 <= m < k ==> fitted[m] == Slice(df, pairs[m])
    {
      var store, item := pairs[k].store, pairs[k].item;
      var timeSeries := Slice(df, Pair(store, item));
      fitted := fitted + [timeSeries];
      var prediction := model(timeSeries);
      assert pairs[..k + 1][..k] == pairs[..k];
      if prediction.None? {
        PrefixFailure(df, pairs, k + 1, model);
        return Failure(FitFailed(pairs[k])), fitted;
      }
      var forecast := Tag(prediction.value, Pair(store, item));
      allForecasts := allForecasts + [forecast];
      k := k + 1;
    }
    assert pairs[..k] == pairs;
    if allForecasts == [] {
      return Failure(NothingToConcatenate), fitted;
    }
    r := Success(Loaded(df, Concat(allForecasts)));
  }

  /** Once a prefix of the pairs fails, the whole run fails the same way. */
  lemma {:induction false} PrefixFailure(df: seq<Sale>, pairs: seq<Pair>, n: nat, model: Forecaster)
    requires n <= |pairs|
    requires RunPairs(df, pairs[..n], model).Failure?
    ensures RunPairs(df, pairs, model) == RunPairs(df, pairs[..n], model)
    decreases |pairs| - n
  {
    if n < |pairs| {
      assert pairs[..n + 1][..n] == pairs[..n];
      PrefixFailure(df, pairs, n + 1, model);
    } else {
      assert pairs[..n] == pairs;
    }
  }

  // ---------------------------------------------------------------------
  // Recovering one pair's block (lines 101-103)
  // ---------------------------------------------------------------------

  /** df_forecast[(store == p.store) & (item == p.item)]: the combined rows
      tagged with p, in table order. */
  function FilterForecast(table: seq<TaggedRow>, p: Pair): (r: seq<TaggedRow>)
    ensures forall x :: x in r ==> x.store == p.store && x.item == p.item
  {
    if table == [] then []
    else (if table[0].store == p.store && table[0].item == p.item then [table[0]] else [])
         + FilterForecast(table[1..], p)
  }

  lemma {:induction false} FilterAppend(a: seq<TaggedRow>, b: seq<TaggedRow>, p: Pair)
    ensures FilterForecast(a + b, p) == FilterForecast(a, p) + FilterForecast(b, p)
  {
    if a != [] {
      assert (a + b)[0] == a[0] && (a + b)[1..] == a[1..] + b;
      FilterAppend(a[1..], b, p);
      var h := if a[0].store == p.store && a[0].item == p.item then [a[0]] else [];
      calc {
        FilterForecast(a + b, p);
        h + FilterForecast(a[1..] + b, p);
        h + (FilterForecast(a[1..], p) + FilterForecast(b, p));
        (h + FilterForecast(a[1..], p)) + FilterForecast(b, p);
      }
    } else {
      assert a + b == b;
    }
  }

  /** Every row carries pair q. */
  predicate TaggedWith(rows: seq<TaggedRow>, q: Pair)
  {
    forall x :: x in rows ==> x.store == q.store && x.item == q.item
  }

  /** Filtering a block tagged with q by p keeps it whole when p is q and
      empties it otherwise. */
  lemma {:induction false} FilterBlock(rows: seq<TaggedRow>, q: Pair, p: Pair)
    requires TaggedWith(rows, q)
    ensures FilterForecast(rows, p) == if p == q then rows else []
  {
    if rows != [] {
      assert rows[0] in rows;
      assert TaggedWith(rows[1..], q) by {
        forall x | x in rows[1..] ensures x.store == q.store && x.item == q.item {
          assert x in rows;
        }
      }
      FilterBlock(rows[1..], q, p);
      assert rows == [rows[0]] + rows[1..];
    }
  }

  /** With distinct pairs and each block tagged with its own pair, filtering
      the concatenation by a pair returns exactly that pair's block, and
      nothing for a pair not in the list. */
  lemma {:induction false} RecoverBlock(blocks: seq<seq<TaggedRow>>, pairs: seq<Pair>, p: Pair)
    requires |blocks| == |pairs| && Distinct(pairs)
    requires forall k :: 0 <= k < |pairs| ==> TaggedWith(blocks[k], pairs[k])
    ensures p !in pairs ==> FilterForecast(Concat(blocks), p) == []
    ensures forall k :: 0 <= k < |pairs| && pairs[k] == p ==> FilterForecast(Concat(blocks), p) == blocks[k]
  {
    if blocks != [] {
      var n := |blocks| - 1;
      var init, initPairs := blocks[..n], pairs[..n];
      RecoverBlock(init, initPairs, p);
      FilterAppend(Concat(init), blocks[n], p);
      FilterBlock(blocks[n], pairs[n], p);
      if p == pairs[n] {
        assert p !in initPairs;
      } else {
        assert p in pairs ==> p in initPairs;
      }
    }
  }

  /** What the forecast view shows for a selected pair after a successful
      load: the model's forecast on that pair's rows, tagged with the pair,
      or nothing when the pair does not occur in the data. */
  lemma SelectedForecast(df: seq<Sale>, model: Forecaster, p: Pair)
    requires RunPairs(df, DistinctPairs(df), model).Success?
    ensures p !in PairsIn(df) ==>
      FilterForecast(Concat(RunPairs(df, DistinctPairs(df), model).value), p) == []
    ensures p in PairsIn(df) ==>
      Block(df, p, model).Some? &&
      FilterForecast(Concat(RunPairs(df, DistinctPairs(df), model).value), p) == Block(df, p, model).value
  {
    var pairs := DistinctPairs(df);
    var blocks := RunPairs(df, pairs, model).value;
    RunPairsBlocks(df, pairs, model);
    RecoverBlock(blocks, pairs, p);
    if p in PairsIn(df) {
      var k :| 0 <= k < |pairs| && pairs[k] == p;
    }
  }
}
