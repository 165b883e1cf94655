/**
 * `GenericKVRepositoryImpl.GetKV` of internal/infrastructure/repositories/
 * generic_kv_repository_impl.go: a cache-aside lookup of translated key/value
 * lists (coffee types, coffee sizes) under a `type:<id>:lang:<code>` key.
 *
 * The cache holds values of any type, as `go-cache` does; an entry that is
 * not a list of items counts as a miss. The database's answer is given as
 * parameters: whether the query fails, the rows it yields (each scannable or
 * not), and whether the row set reports an error at the end. The item type
 * `I` is left abstract.
 */
module GenericKv {
  import opened Wrappers
  import Numerals

  /** A value found in the cache: a list of items, or something of another type. */
  datatype Cached<I> = Items(items: seq<I>) | OtherValue

  /** A row as `rows.Next` yields it: it scans into an item, or `Scan` fails. */
  datatype Row<I> = Scanned(item: I) | Unscannable

  /** Where a database read fails: `QueryContext`, a row's `Scan`, or `rows.Err`. */
  datatype DbFault = QueryFailed | ScanFailed | RowsFailed

  /** `ErrUnsupportedType`, or the database's error as it came. */
  datatype KvError = UnsupportedType | Db(fault: DbFault)

  const CoffeeTypesQuery: string := "SELECT ct.id, ctt.name FROM coffee_types ct JOIN coffee_type_translations ctt ON ct.id = ctt.coffee_type_id JOIN languages l ON ctt.language_id = l.id WHERE l.code = $1 ORDER BY ct.order_by ASC"
  const CoffeeSizesQuery: string := "SELECT s.id, st.name FROM coffee_sizes s JOIN coffee_size_translations st ON s.id = st.coffee_size_id JOIN languages l ON st.language_id = l.id WHERE l.code = $1 ORDER BY s.order_by ASC"

  /** `kvQueries[typeID]`: a query for types 1 and 2 only. */
  function KvQuery(typeID: int): (r: Option<string>)
    ensures r.Some? <==> typeID == 1 || typeID == 2
  {
    if typeID == 1 then Some(CoffeeTypesQuery)
    else if typeID == 2 then Some(CoffeeSizesQuery)
    else None
  }

  /** `fmt.Sprintf("type:%d:lang:%s", typeID, languageCode)`. */
  function CacheKey(typeID: int, lang: string): string
  {
    "type:" + (Numerals.IntToString(typeID) + (":lang:" + lang))
  }

  /** The items of the rows, or the scan failure of the first row that does not scan. */
  function Collect<I>(rows: seq<Row<I>>): Result<seq<I>, DbFault>
  {
    if rows == [] then Ok([])
    else match Collect(rows[..|rows| - 1])
      case Err(e) => Err(e)
      case Ok(items) =>
        if rows[|rows| - 1].Unscannable? then Err(ScanFailed) else Ok(items + [rows[|rows| - 1].item])
  }

  /** What the database read yields: the query's failure first, then a scan failure, then `rows.Err`. */
  function Fetch<I>(queryFault: bool, rows: seq<Row<I>>, rowsFault: bool): Result<seq<I>, DbFault>
  {
    if queryFault then Err(QueryFailed)
    else if Collect(rows).Err? then Collect(rows)
    else if rowsFault then Err(RowsFailed)
    else Collect(rows)
  }

  /** The items a cache answers for a key, if it holds a list of them there. */
  function Lookup<I>(cache: map<string, Cached<I>>, typeID: int, lang: string): Option<seq<I>>
  {
    var key := CacheKey(typeID, lang);
    if key in cache && cache[key].Items? then Some(cache[key].items) else None
  }

  // ---- properties ---------------------------------------------------------

  /** A rendered integer holds no ':'. */
  lemma NoColonInInt(i: int)
    ensures forall j :: 0 <= j < |Numerals.IntToString(i)| ==> Numerals.IntToString(i)[j] != ':'
  {
    if i < 0 {
      var d := Numerals.NatToString(-i);
      assert forall j :: 1 <= j < |Numerals.IntToString(i)| ==> Numerals.IntToString(i)[j] == d[j - 1];
    }
  }

  /** Distinct (type, language) pairs have distinct cache keys. */
  lemma CacheKeyInjective(t1: int, l1: string, t2: int, l2: string)
    requires CacheKey(t1, l1) == CacheKey(t2, l2)
    ensures t1 == t2 && l1 == l2
  {
    var a, b := Numerals.IntToString(t1), Numerals.IntToString(t2);
    var k := CacheKey(t1, l1);
    NoColonInInt(t1);
    NoColonInInt(t2);
    assert forall j :: 0 <= j < |a| ==> k[5 + j] == a[j];
    assert forall j :: 0 <= j < |b| ==> k[5 + j] == b[j];
    assert k[5 + |a|] == ':' && k[5 + |b|] == ':';
    assert |a| == |b|;
    assert a == b;
    Numerals.IntToStringInjective(t1, t2);
    assert k[5 + |a| + 6..] == l1;
    assert CacheKey(t2, l2)[5 + |b| + 6..] == l2;
  }

  /** Storing the items of one (type, language) answers that pair and no other. */
  lemma CacheIsolation<I>(cache: map<string, Cached<I>>, typeID: int, lang: string, items: seq<I>, t: int, l: string)
    ensures Lookup(cache[CacheKey(typeID, lang) := Items(items)], typeID, lang) == Some(items)
    ensures (t, l) != (typeID, lang) ==> Lookup(cache[CacheKey(typeID, lang) := Items(items)], t, l) == Lookup(cache, t, l)
  {
    if (t, l) != (typeID, lang) && CacheKey(t, l) == CacheKey(typeID, lang) {
      CacheKeyInjective(t, l, typeID, lang);
    }
  }

  /** The rows scan to items in database order, or the read fails at the first row that does not scan. */
  lemma {:induction false} CollectSpec<I>(rows: seq<Row<I>>)
    ensures Collect(rows).Ok? <==> forall j :: 0 <= j < |rows| ==> rows[j].Scanned?
    ensures Collect(rows).Ok? ==>
              |Collect(rows).value| == |rows| && (forall j :: 0 <= j < |rows| ==> Collect(rows).value[j] == rows[j].item)
    ensures Collect(rows).Err? ==> Collect(rows).error == ScanFailed
  {
    if rows != [] {
      var init := rows[..|rows| - 1];
      CollectSpec(init);
      assert forall j :: 0 <= j < |init| ==> init[j] == rows[j];
    }
  }

  class GenericKvRepository<I> {
    /** The cache, without its expiry. */
    var cache: map<string, Cached<I>>
    /** The queries sent to the database, each with its language code. */
    var sent: seq<(string, string)>

    constructor()
      ensures cache == map[] && sent == []
    {
      cache := map[];
      sent := [];
    }

    /**
     * `GetKV`: a cached list is answered as is, with no query. On a miss an
     * unknown type is `ErrUnsupportedType`; otherwise the type's query is sent,
     * a failed read is returned and caches nothing, and the items read, in
     * database order and possibly none, are cached under the key and returned.
     */
    method GetKV(typeID: int, lang: string, queryFault: bool, rows: seq<Row<I>>, rowsFault: bool)
        returns (r: Result<seq<I>, KvError>)
      modifies this
      ensures Lookup(old(cache), typeID, lang).Some? ==>
                r == Ok(Lookup(old(cache), typeID, lang).value) && cache == old(cache) && sent == old(sent)
      ensures Lookup(old(cache), typeID, lang).None? && KvQuery(typeID).None? ==>
                r == Err(UnsupportedType) && cache == old(cache) && sent == old(sent)
      ensures Lookup(old(cache), typeID, lang).None? && KvQuery(typeID).Some? ==>
                && sent == old(sent) + [(KvQuery(typeID).value, lang)]
                && (Fetch(queryFault, rows, rowsFault).Err? ==>
                      r == Err(Db(Fetch(queryFault, rows, rowsFault).error)) && cache == old(cache))
                && (Fetch(queryFault, rows, rowsFault).Ok? ==>
                      r == Ok(Fetch(queryFault, rows, rowsFault).value)
                      && cache == old(cache)[CacheKey(typeID, lang) := Items(Fetch(queryFault, rows, rowsFault).value)])
    {
      var cacheKey := CacheKey(typeID, lang);
      if cacheKey in cache && cache[cacheKey].Items? {
        return Ok(cache[cacheKey].items);
      }
      var query := KvQuery(typeID);
      if query.None? {
        return Err(UnsupportedType);
      }
      sent := sent + [(query.value, lang)];
      if queryFault {
        return Err(Db(QueryFailed));
      }
      var items: seq<I> := [];
      var k := 0;
      while k < |rows|
        invariant 0 <= k <= |rows|
        invariant Collect(rows[..k]) == Ok(items)
      {
        assert rows[..k + 1][..k] == rows[..k];
        if rows[k].Unscannable? {
          CollectStops(rows, k + 1);
          return Err(Db(ScanFailed));
        }
        items := items + [rows[k].item];
        k := k + 1;
      }
      assert rows[..|rows|] == rows;
      if rowsFault {
        return Err(Db(RowsFailed));
      }
      cache := cache[cacheKey := Items(items)];
      r := Ok(items);
    }
  }

  /** Once a prefix of the rows fails to scan, so does the whole read. */
  lemma {:induction false} CollectStops<I>(rows: seq<Row<I>>, k: nat)
    requires k <= |rows|
    requires Collect(rows[..k]).Err?
    ensures Collect(rows) == Collect(rows[..k])
    decreases |rows| - k
  {
    if k < |rows| {
      assert rows[..k + 1][..k] == rows[..k];
      CollectStops(rows, k + 1);
    } else {
      assert rows[..k] == rows;
    }
  }
}
