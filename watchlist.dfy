/** The two watch-list filters (`filter_for_coingecko`, `filter_for_binance`).
    A database page is a nested property map; every lookup that the source
    makes with `.get(key, default)` is an optional field here, and every
    lookup that can raise (`entry["properties"]`, `entry["id"]`, indexing an
    empty `rich_text` or `title` list with `[0]`) is an explicit failure. */
module Watchlist {
  import opened Wrappers

  /** One element of a `rich_text` or `title` array. `content` is `None` when
      the element has no `text` object, no `content` key, or a null content. */
  datatype TextItem = TextItem(content: Option<string>)

  /** One property of a page, reduced to the three paths the filters read:
      `formula.boolean`, `rich_text` and `title`. `None` means the key (or an
      enclosing key) is absent, so the source's default applies. */
  datatype Property = Property(
    formulaBoolean: Option<bool>,
    richText: Option<seq<TextItem>>,
    title: Option<seq<TextItem>>)

  /** A page of the database: its `id` and its `properties` map, either of
      which may be missing. */
  datatype Entry = Entry(id: Option<string>, properties: Option<map<string, Property>>)

  /** An emitted record `{id, symbol, coingecko_id | binance_id}`. */
  datatype Record = Record(id: string, symbol: Option<string>, apiId: string)

  /** Reading `.get("rich_text" | "title", [{}])[0].get("text", {}).get("content", None)`:
      either a (possibly absent) content or an `IndexError` on an empty list. */
  datatype Read = Value(content: Option<string>) | IndexError

  /** What the loop body does with one entry. */
  datatype Verdict = Accept(rec: Record) | Skip | Raise

  const SymbolKey: string := "Symbol"

  /** `.get(flagKey, {}).get("formula", {}).get("boolean", "true")` is truthy;
      the default is the non-empty string "true". */
  function FlagSet(props: map<string, Property>, flagKey: string): bool {
    if flagKey in props then props[flagKey].formulaBoolean.GetOr(true) else true
  }

  function RichText(props: map<string, Property>, key: string): Option<seq<TextItem>> {
    if key in props then props[key].richText else None
  }

  function Title(props: map<string, Property>, key: string): Option<seq<TextItem>> {
    if key in props then props[key].title else None
  }

  /** The first element's content; an absent list defaults to `[{}]`, whose
      first element has no content, and an empty list raises. */
  function FirstContent(items: Option<seq<TextItem>>): (r: Read)
    ensures r == IndexError <==> items == Some([])
    ensures items == None ==> r == Value(None)
  {
    match items
    case None => Value(None)
    case Some(xs) => if |xs| == 0 then IndexError else Value(xs[0].content)
  }

  /** The loop body, in the source's evaluation order: `entry["properties"]`,
      then the flag, then (only when the flag is truthy, since `and`
      short-circuits) the id content, then the dict literal. */
  function Classify(e: Entry, flagKey: string, idKey: string): Verdict {
    match e.properties
    case None => Raise
    case Some(props) =>
      if !FlagSet(props, flagKey) then Skip
      else match FirstContent(RichText(props, idKey))
        case IndexError => Raise
        case Value(None) => Skip
        case Value(Some(apiId)) =>
          match e.id
          case None => Raise
          case Some(id) =>
            match FirstContent(Title(props, SymbolKey))
            case IndexError => Raise
            case Value(symbol) => Accept(Record(id, symbol, apiId))
  }

  /** What the filter returns: the accepted records, in order, up to the
      first entry whose reading raises; the `try` around the whole `for`
      loop ends the loop there and keeps what was appended before. */
  function Accepted(table: seq<Entry>, flagKey: string, idKey: string): seq<Record> {
    if table == [] then []
    else match Classify(table[0], flagKey, idKey)
      case Raise => []
      case Skip => Accepted(table[1..], flagKey, idKey)
      case Accept(r) => [r] + Accepted(table[1..], flagKey, idKey)
  }

  // ---------------------------------------------------------------------------
  // A declarative reading of the same rule, stated on the fields directly.

  /** The documented criterion: the flag is truthy (missing counts as
      "true") and the first id content is present. */
  predicate Qualifies(e: Entry, flagKey: string, idKey: string) {
    e.properties.Some? &&
    FlagSet(e.properties.value, flagKey) &&
    FirstContent(RichText(e.properties.value, idKey)).Value? &&
    FirstContent(RichText(e.properties.value, idKey)).content.Some?
  }

  /** Reading this entry raises: no `properties`; or, with the flag truthy,
      an empty `rich_text` list for the id; or, for a qualifying entry, no
      `id` or an empty `title` list for the symbol. */
  predicate Raises(e: Entry, flagKey: string, idKey: string) {
    e.properties.None? ||
    (FlagSet(e.properties.value, flagKey) &&
     (RichText(e.properties.value, idKey) == Some([]) ||
      (Qualifies(e, flagKey, idKey) &&
       (e.id.None? || Title(e.properties.value, SymbolKey) == Some([])))))
  }

  function ToRecord(e: Entry, flagKey: string, idKey: string): Record
    requires Qualifies(e, flagKey, idKey) && !Raises(e, flagKey, idKey)
  {
    var props := e.properties.value;
    Record(e.id.value, FirstContent(Title(props, SymbolKey)).content,
           FirstContent(RichText(props, idKey)).content.value)
  }

  /** `[ToRecord(e) for e in table if Qualifies(e)]`, for a table none of
      whose entries raises. */
  function Keep(table: seq<Entry>, flagKey: string, idKey: string): seq<Record>
    requires forall i :: 0 <= i < |table| ==> !Raises(table[i], flagKey, idKey)
  {
    if table == [] then []
    else if Qualifies(table[0], flagKey, idKey)
    then [ToRecord(table[0], flagKey, idKey)] + Keep(table[1..], flagKey, idKey)
    else Keep(table[1..], flagKey, idKey)
  }

  /** The index of the first entry whose reading raises, or `|table|`. */
  function StopIndex(table: seq<Entry>, flagKey: string, idKey: string): (n: nat)
    ensures n <= |table|
    ensures forall i :: 0 <= i < n ==> !Raises(table[i], flagKey, idKey)
    ensures n < |table| ==> Raises(table[n], flagKey, idKey)
  {
    if table == [] then 0
    else if Raises(table[0], flagKey, idKey) then 0
    else 1 + StopIndex(table[1..], flagKey, idKey)
  }

  /** The loop body raises, skips or accepts exactly as the declarative rule says. */
  lemma ClassifyMatchesRule(e: Entry, flagKey: string, idKey: string)
    ensures Classify(e, flagKey, idKey) == Raise <==> Raises(e, flagKey, idKey)
    ensures Classify(e, flagKey, idKey).Accept? <==>
            Qualifies(e, flagKey, idKey) && !Raises(e, flagKey, idKey)
    ensures Classify(e, flagKey, idKey).Accept? ==>
            Classify(e, flagKey, idKey).rec == ToRecord(e, flagKey, idKey)
  {
  }

  /** The filter keeps, in input order, exactly the qualifying entries that
      come before the first entry whose reading raises. */
  lemma {:induction false} AcceptedIsKeepBeforeStop(table: seq<Entry>, flagKey: string, idKey: string)
    ensures Accepted(table, flagKey, idKey) ==
            Keep(table[..StopIndex(table, flagKey, idKey)], flagKey, idKey)
  {
    var n := StopIndex(table, flagKey, idKey);
    if table != [] {
      ClassifyMatchesRule(table[0], flagKey, idKey);
      if !Raises(table[0], flagKey, idKey) {
        AcceptedIsKeepBeforeStop(table[1..], flagKey, idKey);
        assert table[..n][1..] == table[1..][..n - 1];
      }
    }
  }

  /** The output is never longer than the input. */
  lemma {:induction false} AcceptedNoLonger(table: seq<Entry>, flagKey: string, idKey: string)
    ensures |Accepted(table, flagKey, idKey)| <= |table|
  {
    if table != [] {
      AcceptedNoLonger(table[1..], flagKey, idKey);
    }
  }

  /** Filtering a concatenation: a table that raises nowhere is filtered and
      the rest is filtered after it; a raise in the first part hides the
      second part entirely. */
  lemma {:induction false} AcceptedAppend(a: seq<Entry>, b: seq<Entry>, flagKey: string, idKey: string)
    ensures StopIndex(a, flagKey, idKey) == |a| ==>
            Accepted(a + b, flagKey, idKey) == Accepted(a, flagKey, idKey) + Accepted(b, flagKey, idKey)
    ensures StopIndex(a, flagKey, idKey) < |a| ==>
            Accepted(a + b, flagKey, idKey) == Accepted(a, flagKey, idKey)
  {
    if a != [] {
      ClassifyMatchesRule(a[0], flagKey, idKey);
      assert (a + b)[0] == a[0];
      assert (a + b)[1..] == a[1..] + b;
      AcceptedAppend(a[1..], b, flagKey, idKey);
    } else {
      assert a + b == b;
    }
  }

  /** The loop of both filters: walk the table, append each accepted record,
      and stop at the first entry whose reading raises. */
  method FilterWatchlist(table: seq<Entry>, flagKey: string, idKey: string) returns (list: seq<Record>)
    ensures list == Accepted(table, flagKey, idKey)
  {
    list := [];
    var i := 0;
    while i < |table|
      invariant 0 <= i <= |table|
      invariant Accepted(table, flagKey, idKey) == list + Accepted(table[i..], flagKey, idKey)
    {
      assert table[i..][1..] == table[i + 1..];
      var verdict := Classify(table[i], flagKey, idKey);
      if verdict == Raise {
        break;
      }
      if verdict.Accept? {
        list := list + [verdict.rec];
      }
      i := i + 1;
    }
  }

  /** `filter_for_coingecko`: flag 'Watchlist General', id 'ID API Coingecko'. */
  method FilterForCoingecko(table: seq<Entry>) returns (list: seq<Record>)
    ensures list == Keep(table[..StopIndex(table, "Watchlist General", "ID API Coingecko")],
                         "Watchlist General", "ID API Coingecko")
    ensures |list| <= |table|
  {
    list := FilterWatchlist(table, "Watchlist General", "ID API Coingecko");
    AcceptedIsKeepBeforeStop(table, "Watchlist General", "ID API Coingecko");
    AcceptedNoLonger(table, "Watchlist General", "ID API Coingecko");
  }

  /** `filter_for_binance`: flag 'Watchlist OHLC', id 'ID API Binance'. */
  method FilterForBinance(table: seq<Entry>) returns (list: seq<Record>)
    ensures list == Keep(table[..StopIndex(table, "Watchlist OHLC", "ID API Binance")],
                         "Watchlist OHLC", "ID API Binance")
    ensures |list| <= |table|
  {
    list := FilterWatchlist(table, "Watchlist OHLC", "ID API Binance");
    AcceptedIsKeepBeforeStop(table, "Watchlist OHLC", "ID API Binance");
    AcceptedNoLonger(table, "Watchlist OHLC", "ID API Binance");
  }
}
