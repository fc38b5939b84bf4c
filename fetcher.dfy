/**
  The deterministic tail of the rate fetcher: given the three text columns
  already extracted from the exchange page (currency names, buy texts and
  sell texts, in document order), build the table of buy/sell rates for the
  three tracked currencies.

  Python's float() is not modelled; it is the parameter `parse`, where
  `None` stands for the ValueError that float() raises on a text it cannot
  read. That error is not caught by the fetcher, so it ends the fetch.
*/
module Fetcher {
  import opened Wrappers

  /** The buy and sell rate of one currency, in tenge. */
  datatype Rate = Rate(buy: real, sell: real)

  /** Currency code to rate, as the fetcher's `rates` dictionary. */
  type RateTable = map<string, Rate>

  /** The fetch fails at `row` because `text` (already normalised) is not a number. */
  datatype FetchError = UnparsableRate(row: nat, text: string)

  /** The only currency names that are copied into the table; matched exactly, case included. */
  const TrackedCodes: seq<string> := ["USD", "EUR", "RUB"]

  predicate IsTracked(name: string) {
    name in TrackedCodes
  }

  /** The text with every ',' turned into '.', the decimal-separator normalisation of a rate. */
  function NormaliseDecimal(s: string): (r: string)
    ensures |r| == |s|
    ensures forall i :: 0 <= i < |s| ==> r[i] == if s[i] == ',' then '.' else s[i]
    ensures ',' !in r
  {
    if s == [] then [] else [if s[0] == ',' then '.' else s[0]] + NormaliseDecimal(s[1..])
  }

  /** A text without commas is left as it is, so normalising twice is normalising once. */
  lemma NormaliseFixesCommaFree(s: string)
    requires ',' !in s
    ensures NormaliseDecimal(s) == s
  {
    var r := NormaliseDecimal(s);
    forall i | 0 <= i < |s| ensures r[i] == s[i] {
      assert s[i] != ',' by { assert s[i] in s; }
    }
  }

  lemma NormaliseIdempotent(s: string)
    ensures NormaliseDecimal(NormaliseDecimal(s)) == NormaliseDecimal(s)
  {
    NormaliseFixesCommaFree(NormaliseDecimal(s));
  }

  /** The three columns have one entry per row. */
  predicate Aligned(names: seq<string>, buys: seq<string>, sells: seq<string>) {
    |names| == |buys| == |sells|
  }

  /**
    The rate of row `i` from its buy and sell texts: both are normalised,
    then the buy text is parsed before the sell text, and the first one that
    does not parse is the error.
  */
  function ParseRow(i: nat, buyText: string, sellText: string, parse: string -> Option<real>): Result<Rate, FetchError>
  {
    var buy := NormaliseDecimal(buyText);
    var sell := NormaliseDecimal(sellText);
    match parse(buy)
    case None => Err(UnparsableRate(i, buy))
    case Some(b) =>
      match parse(sell)
      case None => Err(UnparsableRate(i, sell))
      case Some(s) => Ok(Rate(b, s))
  }

  /** Row `i` is a tracked currency whose buy or sell text does not parse. */
  predicate RowFails(names: seq<string>, buys: seq<string>, sells: seq<string>, parse: string -> Option<real>, i: nat)
    requires Aligned(names, buys, sells) && i < |names|
  {
    IsTracked(names[i]) && ParseRow(i, buys[i], sells[i], parse).Err?
  }

  /** The table after rows 0 .. k-1 have been processed in index order. */
  function Assemble(names: seq<string>, buys: seq<string>, sells: seq<string>, parse: string -> Option<real>, k: nat): Result<RateTable, FetchError>
    requires Aligned(names, buys, sells) && k <= |names|
  {
    if k == 0 then Ok(map[])
    else
      match Assemble(names, buys, sells, parse, k - 1)
      case Err(e) => Err(e)
      case Ok(t) =>
        if IsTracked(names[k - 1]) then
          match ParseRow(k - 1, buys[k - 1], sells[k - 1], parse)
          case Err(e) => Err(e)
          case Ok(rate) => Ok(t[names[k - 1] := rate])
        else Ok(t)
  }

  /** What the fetcher returns for the three extracted columns. */
  function FetchTable(names: seq<string>, buys: seq<string>, sells: seq<string>, parse: string -> Option<real>): Result<RateTable, FetchError>
  {
    if Aligned(names, buys, sells) then Assemble(names, buys, sells, parse, |names|) else Ok(map[])
  }

  /**
    The table-building loop of the fetcher: returns the empty table when the
    columns do not line up, otherwise walks the rows in order and assigns the
    rate of every tracked row into the table, stopping at the first rate text
    that does not parse.
  */
  method FetchRates(names: seq<string>, buys: seq<string>, sells: seq<string>, parse: string -> Option<real>)
    returns (r: Result<RateTable, FetchError>)
    ensures r == FetchTable(names, buys, sells, parse)
  {
    var rates: RateTable := map[];
    if |names| == |buys| == |sells| {
      var i := 0;
      while i < |names|
        invariant 0 <= i <= |names|
        invariant Assemble(names, buys, sells, parse, i) == Ok(rates)
      {
        var name := names[i];
        var buy := NormaliseDecimal(buys[i]);
        var sell := NormaliseDecimal(sells[i]);
        if name in TrackedCodes {
          var b := parse(buy);
          if b.None? {
            AssembleErrorPersists(names, buys, sells, parse, i + 1, |names|);
            return Err(UnparsableRate(i, buy));
          }
          var s := parse(sell);
          if s.None? {
            AssembleErrorPersists(names, buys, sells, parse, i + 1, |names|);
            return Err(UnparsableRate(i, sell));
          }
          rates := rates[name := Rate(b.value, s.value)];
        }
        i := i + 1;
      }
    }
    return Ok(rates);
  }

  /** Once a prefix fails, every longer prefix fails with the same error. */
  lemma {:induction false} AssembleErrorPersists(names: seq<string>, buys: seq<string>, sells: seq<string>, parse: string -> Option<real>, k: nat, m: nat)
    requires Aligned(names, buys, sells) && k <= m <= |names|
    requires Assemble(names, buys, sells, parse, k).Err?
    ensures Assemble(names, buys, sells, parse, m) == Assemble(names, buys, sells, parse, k)
  {
    if k < m {
      AssembleErrorPersists(names, buys, sells, parse, k, m - 1);
    }
  }

  /** A prefix fails exactly when one of its rows fails, and the error is that of the first failing row. */
  lemma {:induction false} AssembleError(names: seq<string>, buys: seq<string>, sells: seq<string>, parse: string -> Option<real>, k: nat)
    requires Aligned(names, buys, sells) && k <= |names|
    ensures Assemble(names, buys, sells, parse, k).Err? <==> exists i :: 0 <= i < k && RowFails(names, buys, sells, parse, i)
    ensures Assemble(names, buys, sells, parse, k).Err? ==>
      var e := Assemble(names, buys, sells, parse, k).error;
      && e.row < k
      && RowFails(names, buys, sells, parse, e.row)
      && (forall j :: 0 <= j < e.row ==> !RowFails(names, buys, sells, parse, j))
      && ParseRow(e.row, buys[e.row], sells[e.row], parse) == Err(e)
  {
    if k > 0 {
      AssembleError(names, buys, sells, parse, k - 1);
      if Assemble(names, buys, sells, parse, k - 1).Ok? && !RowFails(names, buys, sells, parse, k - 1) {
        forall i | 0 <= i < k ensures !RowFails(names, buys, sells, parse, i) {
        }
      }
    }
  }

  /** A successful prefix holds exactly the tracked names that occur in it. */
  lemma {:induction false} AssembleKeys(names: seq<string>, buys: seq<string>, sells: seq<string>, parse: string -> Option<real>, k: nat, n: string)
    requires Aligned(names, buys, sells) && k <= |names|
    requires Assemble(names, buys, sells, parse, k).Ok?
    ensures n in Assemble(names, buys, sells, parse, k).value <==> IsTracked(n) && exists i :: 0 <= i < k && names[i] == n
  {
    if k > 0 {
      AssembleKeys(names, buys, sells, parse, k - 1, n);
      if IsTracked(n) && names[k - 1] != n && exists i :: 0 <= i < k && names[i] == n {
        var i :| 0 <= i < k && names[i] == n;
        assert i < k - 1;
      }
    }
  }

  /** In a successful prefix, the entry of a tracked name comes from the last row that carries it. */
  lemma {:induction false} AssembleLastRowWins(names: seq<string>, buys: seq<string>, sells: seq<string>, parse: string -> Option<real>, k: nat, i: nat)
    requires Aligned(names, buys, sells) && i < k <= |names|
    requires Assemble(names, buys, sells, parse, k).Ok?
    requires IsTracked(names[i])
    requires forall j :: i < j < k ==> names[j] != names[i]
    ensures ParseRow(i, buys[i], sells[i], parse).Ok?
    ensures names[i] in Assemble(names, buys, sells, parse, k).value
    ensures Assemble(names, buys, sells, parse, k).value[names[i]] == ParseRow(i, buys[i], sells[i], parse).value
  {
    if i < k - 1 {
      AssembleLastRowWins(names, buys, sells, parse, k - 1, i);
    }
  }

  /** When the columns do not line up, the table is empty and no row is read. */
  lemma MisalignedGivesEmptyTable(names: seq<string>, buys: seq<string>, sells: seq<string>, parse: string -> Option<real>)
    requires !Aligned(names, buys, sells)
    ensures FetchTable(names, buys, sells, parse) == Ok(map[])
  {
  }

  /** Every key of a fetched table is one of the tracked codes. */
  lemma FetchKeysTracked(names: seq<string>, buys: seq<string>, sells: seq<string>, parse: string -> Option<real>)
    requires FetchTable(names, buys, sells, parse).Ok?
    ensures forall n :: n in FetchTable(names, buys, sells, parse).value ==> IsTracked(n)
  {
    if Aligned(names, buys, sells) {
      forall n | n in FetchTable(names, buys, sells, parse).value ensures IsTracked(n) {
        AssembleKeys(names, buys, sells, parse, |names|, n);
      }
    }
  }

  /** With aligned columns, a fetched table has a key exactly for each tracked name that occurs in the names column. */
  lemma FetchKeyIffOccurs(names: seq<string>, buys: seq<string>, sells: seq<string>, parse: string -> Option<real>, n: string)
    requires Aligned(names, buys, sells)
    requires FetchTable(names, buys, sells, parse).Ok?
    ensures n in FetchTable(names, buys, sells, parse).value <==> IsTracked(n) && n in names
  {
    AssembleKeys(names, buys, sells, parse, |names|, n);
    if n in names {
      var i :| 0 <= i < |names| && names[i] == n;
    }
  }

  /** The entry of a tracked name is parsed from the normalised texts of the last row with that name. */
  lemma FetchLastRowWins(names: seq<string>, buys: seq<string>, sells: seq<string>, parse: string -> Option<real>, i: nat)
    requires Aligned(names, buys, sells) && i < |names|
    requires FetchTable(names, buys, sells, parse).Ok?
    requires IsTracked(names[i])
    requires forall j :: i < j < |names| ==> names[j] != names[i]
    ensures parse(NormaliseDecimal(buys[i])).Some? && parse(NormaliseDecimal(sells[i])).Some?
    ensures names[i] in FetchTable(names, buys, sells, parse).value
    ensures FetchTable(names, buys, sells, parse).value[names[i]]
         == Rate(parse(NormaliseDecimal(buys[i])).value, parse(NormaliseDecimal(sells[i])).value)
  {
    AssembleLastRowWins(names, buys, sells, parse, |names|, i);
  }

  /**
    With aligned columns the fetch fails exactly when some tracked row has a
    rate text that does not parse, and it reports the first such row.
  */
  lemma FetchFailsAtFirstBadRow(names: seq<string>, buys: seq<string>, sells: seq<string>, parse: string -> Option<real>)
    requires Aligned(names, buys, sells)
    ensures FetchTable(names, buys, sells, parse).Err? <==> exists i :: 0 <= i < |names| && RowFails(names, buys, sells, parse, i)
    ensures FetchTable(names, buys, sells, parse).Err? ==>
      var e := FetchTable(names, buys, sells, parse).error;
      && e.row < |names|
      && RowFails(names, buys, sells, parse, e.row)
      && forall j :: 0 <= j < e.row ==> !RowFails(names, buys, sells, parse, j)
  {
    AssembleError(names, buys, sells, parse, |names|);
  }

  /** Normalisation works character by character, so it distributes over concatenation. */
  lemma {:induction false} NormaliseAppend(a: string, b: string)
    ensures NormaliseDecimal(a + b) == NormaliseDecimal(a) + NormaliseDecimal(b)
  {
    if a != [] {
      assert (a + b)[1..] == a[1..] + b;
      NormaliseAppend(a[1..], b);
    } else {
      assert a + b == b;
    }
  }

  /** A rate written with a decimal comma reads, after normalisation, as the same digits with a decimal point. */
  lemma NormaliseDecimalComma(whole: string, fraction: string)
    requires ',' !in whole && ',' !in fraction
    ensures NormaliseDecimal(whole + "," + fraction) == whole + "." + fraction
  {
    NormaliseAppend(whole + ",", fraction);
    NormaliseAppend(whole, ",");
    NormaliseFixesCommaFree(whole);
    NormaliseFixesCommaFree(fraction);
  }

  /**
    A page that lists USD, EUR and RUB once each, followed by a currency that is
    not tracked: the table holds exactly the three tracked codes, each with the
    rates read from its own row after normalisation.
  */
  lemma SamplePage(parse: string -> Option<real>, other: string, buys: seq<string>, sells: seq<string>)
    requires !IsTracked(other) && |buys| == 4 && |sells| == 4
    requires forall i :: 0 <= i < 3 ==> parse(NormaliseDecimal(buys[i])).Some? && parse(NormaliseDecimal(sells[i])).Some?
    ensures FetchTable(["USD", "EUR", "RUB", other], buys, sells, parse)
         == Ok(map["USD" := Rate(parse(NormaliseDecimal(buys[0])).value, parse(NormaliseDecimal(sells[0])).value),
                   "EUR" := Rate(parse(NormaliseDecimal(buys[1])).value, parse(NormaliseDecimal(sells[1])).value),
                   "RUB" := Rate(parse(NormaliseDecimal(buys[2])).value, parse(NormaliseDecimal(sells[2])).value)])
  {
    var names := ["USD", "EUR", "RUB", other];
    assert IsTracked("USD") && IsTracked("EUR") && IsTracked("RUB");
    var r0 := ParseRow(0, buys[0], sells[0], parse).value;
    var r1 := ParseRow(1, buys[1], sells[1], parse).value;
    var r2 := ParseRow(2, buys[2], sells[2], parse).value;
    assert Assemble(names, buys, sells, parse, 1) == Ok(map["USD" := r0]);
    assert Assemble(names, buys, sells, parse, 2) == Ok(map["USD" := r0, "EUR" := r1]);
    assert Assemble(names, buys, sells, parse, 3) == Ok(map["USD" := r0, "EUR" := r1, "RUB" := r2]);
  }
}
