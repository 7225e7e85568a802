/** The V2 dashboard's data side: the sorted store and item selector lists
    and the forecast and history rows shown for the selected pair, computed
    only when the loader returned its tables. */
module Selection {
  import opened Wrappers
  import opened BatchForecast

  predicate StrictlyIncreasing(s: seq<int>)
  {
    forall i, j :: 0 <= i < j < |s| ==> s[i] < s[j]
  }

  function InsertUnique(x: int, s: seq<int>): (r: seq<int>)
    requires StrictlyIncreasing(s)
    ensures StrictlyIncreasing(r)
    ensures forall v :: v in r <==> v in s || v == x
  {
    if s == [] || x < s[0] then [x] + s
    else if x == s[0] then s
    else
      var rest := InsertUnique(x, s[1..]);
      assert forall k :: 0 <= k < |rest| ==> rest[k] in s[1..] || rest[k] == x;
      [s[0]] + rest
  }

  /** sorted(values.unique()): the distinct values, smallest first. */
  function SortedUnique(xs: seq<int>): (r: seq<int>)
    ensures StrictlyIncreasing(r)
    ensures forall v :: v in r <==> v in xs
  {
    if xs == [] then []
    else
      assert xs == xs[..|xs| - 1] + [xs[|xs| - 1]];
      InsertUnique(xs[|xs| - 1], SortedUnique(xs[..|xs| - 1]))
  }

  function StoreColumn(df: seq<Sale>): (c: seq<int>)
    ensures |c| == |df| && forall i :: 0 <= i < |df| ==> c[i] == df[i].store
  {
    seq(|df|, i requires 0 <= i < |df| => df[i].store)
  }

  function ItemColumn(df: seq<Sale>): (c: seq<int>)
    ensures |c| == |df| && forall i :: 0 <= i < |df| ==> c[i] == df[i].item
  {
    seq(|df|, i requires 0 <= i < |df| => df[i].item)
  }

  /** The store selector: every store of the table once, ascending. */
  function Stores(df: seq<Sale>): (r: seq<int>)
    ensures StrictlyIncreasing(r)
    ensures forall v :: v in r <==> exists s :: s in df && s.store == v
  {
    var c := StoreColumn(df);
    assert forall v :: v in c <==> exists s :: s in df && s.store == v by {
      forall v ensures v in c <==> exists s :: s in df && s.store == v {
        if v in c {
          var i :| 0 <= i < |c| && c[i] == v;
          assert df[i] in df;
        }
        if exists s :: s in df && s.store == v {
          var s :| s in df && s.store == v;
          var i :| 0 <= i < |df| && df[i] == s;
          assert c[i] == v;
        }
      }
    }
    SortedUnique(c)
  }

  /** The item selector: every item of the table once, ascending. */
  function Items(df: seq<Sale>): (r: seq<int>)
    ensures StrictlyIncreasing(r)
    ensures forall v :: v in r <==> exists s :: s in df && s.item == v
  {
    var c := ItemColumn(df);
    assert forall v :: v in c <==> exists s :: s in df && s.item == v by {
      forall v ensures v in c <==> exists s :: s in df && s.item == v {
        if v in c {
          var i :| 0 <= i < |c| && c[i] == v;
          assert df[i] in df;
        }
        if exists s :: s in df && s.item == v {
          var s :| s in df && s.item == v;
          var i :| 0 <= i < |df| && df[i] == s;
          assert c[i] == v;
        }
      }
    }
    SortedUnique(c)
  }

  /** What the dashboard computes for a selection: both selector lists, the
      selected pair's forecast rows and its history rows. */
  datatype View = View(stores: seq<int>, items: seq<int>,
                       forecast: seq<TaggedRow>, history: seq<Sale>)

  /** The main application logic: nothing is shown unless the loader
      returned both tables; otherwise the selector lists and the two
      filters for the selected store and item. */
  function Dashboard(loaded: Result<Loaded, LoadError>, store: int, item: int): (v: Option<View>)
    ensures v.None? <==> loaded.Failure?
    ensures v.Some? ==>
      v.value.stores == Stores(loaded.value.data) &&
      v.value.items == Items(loaded.value.data) &&
      v.value.forecast == FilterForecast(loaded.value.forecast, Pair(store, item)) &&
      v.value.history == Slice(loaded.value.data, Pair(store, item))
  {
    match loaded
    case Failure(_) => None
    case Success(Loaded(df, forecast)) =>
      Some(View(Stores(df), Items(df),
                FilterForecast(forecast, Pair(store, item)),
                Slice(df, Pair(store, item))))
  }

  /** After a successful load, the forecast view of a selection is the
      model's forecast on that pair's history, tagged with the pair, and
      empty when the table has no such pair; the history view is exactly the
      pair's rows. */
  lemma DashboardShowsSelectedPair(df: seq<Sale>, model: Forecaster, store: int, item: int)
    requires RunPairs(df, DistinctPairs(df), model).Success?
    ensures var v := Dashboard(Success(Loaded(df, Concat(RunPairs(df, DistinctPairs(df), model).value))), store, item);
      v.Some? &&
      (Pair(store, item) !in PairsIn(df) ==> v.value.forecast == [] && v.value.history == []) &&
      (Pair(store, item) in PairsIn(df) ==>
        Block(df, Pair(store, item), model).Some? &&
        v.value.forecast == Block(df, Pair(store, item), model).value &&
        v.value.forecast == Tag(model(v.value.history).value, Pair(store, item)))
  {
    var p := Pair(store, item);
    SelectedForecast(df, model, p);
    if p !in PairsIn(df) {
      SliceOfAbsentPair(df, p);
    }
  }

  lemma {:induction false} SliceOfAbsentPair(df: seq<Sale>, p: Pair)
    requires p !in PairsIn(df)
    ensures Slice(df, p) == []
  {
    if df != [] {
      PairsInContains(df, 0);
      PairsInTail(df);
      SliceOfAbsentPair(df[1..], p);
    }
  }

  lemma {:induction false} PairsInContains(df: seq<Sale>, k: nat)
    requires k < |df|
    ensures PairOf(df[k]) in PairsIn(df)
  {
    if k < |df| - 1 {
      PairsInContains(df[..|df| - 1], k);
    }
  }

  lemma PairsInTail(df: seq<Sale>)
    requires df != []
    ensures PairsIn(df[1..]) <= PairsIn(df)
  {
    forall p | p in PairsIn(df[1..]) ensures p in PairsIn(df) {
      var k := PairIndex(df[1..], p);
      assert df[1..][k] == df[k + 1];
      PairsInContains(df, k + 1);
    }
  }

  lemma {:induction false} PairIndex(df: seq<Sale>, p: Pair) returns (k: nat)
    requires p in PairsIn(df)
    ensures k < |df| && PairOf(df[k]) == p
  {
    if PairOf(df[|df| - 1]) == p {
      k := |df| - 1;
    } else {
      k := PairIndex(df[..|df| - 1], p);
    }
  }
}
