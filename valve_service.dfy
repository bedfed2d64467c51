/** The valve service: the queries it sends to the hosted database for the
    valve list and the plant list, the payload cleaning applied before a
    valve is inserted, and how it treats the backend's answer. The database
    itself is not modelled: a query is a value, and the backend's answer is
    a parameter. */
module ValveService {
  import opened Common
  import opened Text

  /** The JavaScript values a field of a valve payload can hold. */
  datatype Value = Undefined | Null | Str(s: string) | Num(n: real) | Bool(b: bool)

  /** One `[key, value]` pair of `Object.entries(payload)`. */
  datatype Entry = Entry(key: string, value: Value)

  /** The filter of `createValvula`: only `undefined` and the empty string
      are dropped; `null`, `0` and `false` are sent. */
  predicate Kept(v: Value) {
    v != Undefined && v != Str("")
  }

  predicate DistinctKeys(p: seq<Entry>) {
    forall i, j :: 0 <= i < j < |p| ==> p[i].key != p[j].key
  }

  /** `Object.fromEntries(Object.entries(payload).filter(...))`: the payload
      that `createValvula` inserts. An entry survives exactly when its value
      is kept. */
  function Clean(payload: seq<Entry>): (r: seq<Entry>)
    ensures |r| <= |payload|
    ensures forall e :: e in r <==> e in payload && Kept(e.value)
  {
    if payload == [] then []
    else (if Kept(payload[0].value) then [payload[0]] else []) + Clean(payload[1..])
  }

  /** Cleaning works entry by entry, so it keeps the relative order of the
      entries it keeps. */
  lemma {:induction false} CleanAppend(a: seq<Entry>, b: seq<Entry>)
    ensures Clean(a + b) == Clean(a) + Clean(b)
  {
    if a == [] {
      assert a + b == b;
    } else {
      assert (a + b)[0] == a[0];
      assert (a + b)[1..] == a[1..] + b;
      CleanAppend(a[1..], b);
    }
  }

  /** A cleaned payload is already clean. */
  lemma {:induction false} CleanIdempotent(p: seq<Entry>)
    ensures Clean(Clean(p)) == Clean(p)
  {
    if p != [] {
      CleanIdempotent(p[1..]);
      var head := if Kept(p[0].value) then [p[0]] else [];
      CleanAppend(head, Clean(p[1..]));
    }
  }

  /** Cleaning never introduces a repeated key, so the inserted object has
      the same keys, with the same values, as the entries that survived. */
  lemma {:induction false} CleanDistinctKeys(p: seq<Entry>)
    requires DistinctKeys(p)
    ensures DistinctKeys(Clean(p))
  {
    if p != [] {
      CleanDistinctKeys(p[1..]);
      var rest := Clean(p[1..]);
      if Kept(p[0].value) {
        forall j | 0 <= j < |rest| ensures rest[j].key != p[0].key {
          assert rest[j] in p[1..];
        }
      }
    }
  }

  /** `null`, `0` and `false` survive cleaning; `undefined` and `''` do not. */
  lemma CleanKeepsFalsyValues(key: string)
    ensures Clean([Entry(key, Null), Entry(key, Num(0.0)), Entry(key, Bool(false))])
         == [Entry(key, Null), Entry(key, Num(0.0)), Entry(key, Bool(false))]
    ensures Clean([Entry(key, Undefined), Entry(key, Str(""))]) == []
  {
  }

  /** An empty `tag` is dropped by cleaning, although a valve payload
      requires a `tag`: the insert then goes out without one. */
  lemma EmptyTagDropped(p: seq<Entry>)
    requires DistinctKeys(p)
    requires Entry("tag", Str("")) in p
    ensures forall e :: e in Clean(p) ==> e.key != "tag"
  {
    forall e | e in Clean(p) ensures e.key != "tag" {
      var i :| 0 <= i < |p| && p[i] == e;
      var j :| 0 <= j < |p| && p[j] == Entry("tag", Str(""));
      assert i == j || p[i].key != p[j].key;
    }
  }

  /** The columns the valve search matches against. */
  const SearchColumns: seq<string> := ["tag", "fabricante", "modelo", "numero_serie"]

  datatype Filter = ILike(column: string, pattern: string) | Eq(column: string, value: string)

  datatype Order = Order(column: string, ascending: bool)

  /** A query on one table: selected columns, ordering, a disjunction of
      filters (`or(...)`) and a conjunction of filters (`eq(...)`). */
  datatype Query = Query(table: string, columns: string, order: Order, anyOf: seq<Filter>, allOf: seq<Filter>)

  /** The `ilike` pattern of `listValvulas`: none for an absent, empty or
      all-whitespace search, otherwise the trimmed search between `%`s. */
  function SearchPattern(search: Option<string>): (r: Option<string>)
    ensures r.None? <==> search.None? || AllWhitespace(search.value)
    ensures r.Some? ==> exists t :: && r.value == "%" + t + "%"
                                    && t != "" && !IsWhitespace(t[0]) && !IsWhitespace(t[|t| - 1])
                                    && t == Trim(search.value)
  {
    if search.Some? && Truthy(search.value) && Truthy(Trim(search.value)) then
      TrimEmptyIff(search.value);
      TrimIsSlice(search.value);
      Some("%" + Trim(search.value) + "%")
    else
      if search.Some? then TrimEmptyIff(search.value); None else None
  }

  /** One `ilike` filter per column, in column order. */
  function AllLike(columns: seq<string>, pattern: string): (r: seq<Filter>)
    ensures |r| == |columns|
    ensures forall i :: 0 <= i < |r| ==> r[i] == ILike(columns[i], pattern)
  {
    if columns == [] then [] else [ILike(columns[0], pattern)] + AllLike(columns[1..], pattern)
  }

  /** The query `listValvulas` sends: all valves, newest first, and when a
      search is given, those whose tag, manufacturer, model or serial number
      contains it, ignoring case. */
  function ValvulasQuery(search: Option<string>): (q: Query)
    ensures q.table == "valvulas" && q.columns == "*" && q.order == Order("created_at", false)
    ensures q.allOf == []
    ensures q.anyOf == [] <==> SearchPattern(search).None?
    ensures q.anyOf != [] ==> |q.anyOf| == |SearchColumns|
    ensures forall i :: 0 <= i < |q.anyOf| ==>
              q.anyOf[i] == ILike(SearchColumns[i], SearchPattern(search).value)
  {
    var pattern := SearchPattern(search);
    var anyOf := if pattern.Some? then AllLike(SearchColumns, pattern.value) else [];
    Query("valvulas", "*", Order("created_at", false), anyOf, [])
  }

  /** One condition of the `or(...)` argument: `<column>.ilike.<pattern>`. */
  function ILikeText(column: string, pattern: string): string {
    column + ".ilike." + pattern
  }

  /** The `or(...)` argument `listValvulas` sends: the four conditions of
      `ValvulasQuery`, written out and joined with `,`. The pattern goes in
      as it is, unquoted. */
  function OrFilterText(pattern: string): string {
    ILikeText("tag", pattern) + "," + ILikeText("fabricante", pattern) + ","
      + ILikeText("modelo", pattern) + "," + ILikeText("numero_serie", pattern)
  }

  /** A filter written out as the backend reads it in an `or(...)`
      argument. */
  function FilterText(f: Filter): string {
    match f
    case ILike(column, pattern) => ILikeText(column, pattern)
    case Eq(column, value) => column + ".eq." + value
  }

  /** Filters written out and joined with `,`. */
  function JoinFilters(fs: seq<Filter>): string {
    if fs == [] then ""
    else if |fs| == 1 then FilterText(fs[0])
    else FilterText(fs[0]) + "," + JoinFilters(fs[1..])
  }

  /** Four `ilike` filters with one pattern, joined, give the four
      conditions in the same order, each followed by a comma but the last. */
  lemma {:induction false} JoinFourLike(a: string, b: string, c: string, d: string, pattern: string)
    ensures JoinFilters([ILike(a, pattern), ILike(b, pattern), ILike(c, pattern), ILike(d, pattern)])
            == ILikeText(a, pattern) + "," + ILikeText(b, pattern) + ","
               + ILikeText(c, pattern) + "," + ILikeText(d, pattern)
  {
    var fs := [ILike(a, pattern), ILike(b, pattern), ILike(c, pattern), ILike(d, pattern)];
    var ta, tb, tc, td := ILikeText(a, pattern), ILikeText(b, pattern), ILikeText(c, pattern), ILikeText(d, pattern);
    assert fs[1..][1..][1..] == [ILike(d, pattern)];
    assert JoinFilters(fs[1..][1..]) == tc + "," + td;
    assert JoinFilters(fs[1..]) == tb + "," + (tc + "," + td);
    assert JoinFilters(fs) == ta + "," + (tb + "," + (tc + "," + td));
  }

  /** The `or(...)` argument is the filter list of `ValvulasQuery` written
      out: for every search that gives a pattern, joining the query's
      filters yields exactly `OrFilterText` of that pattern. */
  lemma OrFilterOfQuery(search: Option<string>)
    requires SearchPattern(search).Some?
    ensures JoinFilters(ValvulasQuery(search).anyOf) == OrFilterText(SearchPattern(search).value)
  {
    var p := SearchPattern(search).value;
    assert ValvulasQuery(search).anyOf == AllLike(SearchColumns, p);
    SearchColumnFilters(p);
    JoinFourLike("tag", "fabricante", "modelo", "numero_serie", p);
  }

  lemma SearchColumnFilters(p: string)
    ensures AllLike(SearchColumns, p)
            == [ILike("tag", p), ILike("fabricante", p), ILike("modelo", p), ILike("numero_serie", p)]
  {
  }

  lemma ILikeTextCommas(column: string, pattern: string)
    requires ',' !in column
    ensures Count(ILikeText(column, pattern), ',') == Count(pattern, ',')
  {
    CountAppend(column, ".ilike.", ',');
    CountAppend(column + ".ilike.", pattern, ',');
  }

  lemma JoinCommas(a: string, b: string)
    ensures Count(a + "," + b, ',') == Count(a, ',') + 1 + Count(b, ',')
  {
    CountAppend(a, ",", ',');
    CountAppend(a + ",", b, ',');
  }

  lemma ColumnsHaveNoComma()
    ensures ',' !in "tag" && ',' !in "fabricante" && ',' !in "modelo" && ',' !in "numero_serie"
  {
  }

  /** The backend splits the `or(...)` argument at its commas. Each comma
      of the pattern is written four times, so the argument has exactly
      the three separating commas, and reads as the four conditions of
      `ValvulasQuery`, exactly when the search holds no comma. */
  lemma OrFilterCommas(pattern: string)
    ensures Count(OrFilterText(pattern), ',') == 3 + 4 * Count(pattern, ',')
    ensures Count(OrFilterText(pattern), ',') == 3 <==> ',' !in pattern
  {
    ColumnsHaveNoComma();
    ILikeTextCommas("tag", pattern);
    ILikeTextCommas("fabricante", pattern);
    ILikeTextCommas("modelo", pattern);
    ILikeTextCommas("numero_serie", pattern);
    JoinCommas(ILikeText("tag", pattern), ILikeText("fabricante", pattern));
    JoinCommas(ILikeText("tag", pattern) + "," + ILikeText("fabricante", pattern), ILikeText("modelo", pattern));
    JoinCommas(ILikeText("tag", pattern) + "," + ILikeText("fabricante", pattern) + "," + ILikeText("modelo", pattern),
               ILikeText("numero_serie", pattern));
    assert Count(pattern, ',') == 0 <==> ',' !in pattern;
  }

  /** A search such as `a,b` reaches the backend as eight comma-separated
      pieces instead of four conditions. */
  lemma CommaInSearch()
    ensures SearchPattern(Some("a,b")) == Some("%a,b%")
    ensures Count(OrFilterText("%a,b%"), ',') == 7
  {
    assert !AllWhitespace("a,b") by {
      assert "a,b"[0] == 'a';
    }
    assert "%" + "a,b" + "%" == "%a,b%";
    assert Trim("a,b") == "a,b" by {
      assert !IsWhitespace('a') && !IsWhitespace('b');
      assert TrimStart("a,b") == "a,b";
      assert TrimEnd("a,b") == "a,b";
    }
    SearchWithOneComma();
    OrFilterCommas("%a,b%");
  }

  lemma SearchWithOneComma()
    ensures Count("%a,b%", ',') == 1
  {
    assert ',' !in "%a" && ',' !in "b%";
    CountAppend("%a", ",", ',');
    CountAppend("%a,", "b%", ',');
    assert "%a" + "," + "b%" == "%a,b%";
  }

  /** The query `listPlantas` sends: plants ordered by name, restricted to
      one company only when a non-empty company id is given. */
  function PlantasQuery(empresaId: Option<string>): (q: Query)
    ensures q.table == "plantas" && q.columns == "id,nome,empresa_id" && q.order == Order("nome", true)
    ensures q.anyOf == []
    ensures q.allOf == [] <==> !PresentAndTruthy(empresaId)
    ensures forall f :: f in q.allOf ==> f == Eq("empresa_id", empresaId.value)
  {
    var allOf := if PresentAndTruthy(empresaId) then [Eq("empresa_id", empresaId.value)] else [];
    Query("plantas", "id,nome,empresa_id", Order("nome", true), [], allOf)
  }

  /** The backend's answer to a query: rows (possibly `null`) and an error. */
  datatype Response<T> = Response(data: Option<T>, error: Option<string>)

  /** How the list functions finish: an error is thrown as it came, and no
      rows (`null`) means the empty list. */
  function SettleList<T>(resp: Response<seq<T>>): (r: Result<seq<T>, string>)
    ensures r.Err? <==> resp.error.Some?
    ensures r.Err? ==> r.error == resp.error.value
    ensures r.Ok? ==> r.value == (if resp.data.Some? then resp.data.value else [])
  {
    match resp.error
    case Some(e) => Err(e)
    case None => Ok(if resp.data.Some? then resp.data.value else [])
  }

  /** How `createValvula` and `deleteValvula` finish: an error is thrown as
      it came, otherwise the returned row (if any) is passed on. */
  function SettleOne<T>(resp: Response<T>): (r: Result<Option<T>, string>)
    ensures r.Err? <==> resp.error.Some?
    ensures r.Err? ==> r.error == resp.error.value
    ensures r.Ok? ==> r.value == resp.data
  {
    if resp.error.Some? then Err(resp.error.value) else Ok(resp.data)
  }
}
