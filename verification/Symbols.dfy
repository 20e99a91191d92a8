/**
 Ticker symbols of currencies: two registries kept as pairs of lookup maps, and the mutually
 recursive parsing and printing of symbols, where a lend token is its underlying currency's
 symbol behind a `Q`.
 */
module Symbols {
  import opened Prelude

  datatype TokenSymbol = DOT | IBTC | INTR | KSM | KBTC | KINT | GGXT | GGX

  datatype CurrencyId =
    | Token(token: TokenSymbol)
    | ForeignAsset(foreignId: nat)
    | LendToken(lendId: nat)
    | OtherToken(otherId: nat)

  /** `symbol` is `None` when the bytes on chain are not valid UTF-8. */
  datatype AssetMetadata = AssetMetadata(symbol: Option<string>, decimals: nat)

  datatype Error = AssetNotFound | InvalidCurrency | TokenUnsupported

  datatype Result<+T> = Ok(value: T) | Err(error: Error)

  // ------------------------------------------------------------------ upper case

  function UpperChar(c: char): char {
    if 'a' <= c <= 'z' then c - 'a' + 'A' else c
  }

  function Upper(s: string): (r: string)
    ensures |r| == |s|
    ensures forall i :: 0 <= i < |s| ==> r[i] == UpperChar(s[i])
  {
    seq(|s|, i requires 0 <= i < |s| => UpperChar(s[i]))
  }

  lemma {:induction false} UpperTwice(s: string)
    ensures Upper(Upper(s)) == Upper(s)
  {
  }

  lemma {:induction false} UpperTail(s: string)
    requires s != []
    ensures Upper(s)[1..] == Upper(s[1..]) && Upper(Upper(s)[1..]) == Upper(s)[1..]
  {
  }

  // ------------------------------------------------------------------ paired lookup maps

  /** Two maps written together: the shape of both registries. */
  datatype Paired<A, B> = Paired(there: map<A, B>, back: map<B, A>)

  function Insert<A, B>(p: Paired<A, B>, entry: (A, B)): Paired<A, B> {
    Paired(p.there[entry.0 := entry.1], p.back[entry.1 := entry.0])
  }

  function InsertAll<A, B>(p: Paired<A, B>, entries: seq<(A, B)>): Paired<A, B> {
    if entries == [] then p
    else Insert(InsertAll(p, entries[..|entries| - 1]), entries[|entries| - 1])
  }

  ghost predicate MutuallyInverse<A(!new), B(!new)>(p: Paired<A, B>) {
    && (forall a :: a in p.there ==> p.there[a] in p.back && p.back[p.there[a]] == a)
    && (forall b :: b in p.back ==> p.back[b] in p.there && p.there[p.back[b]] == b)
  }

  /** Entry `i` is the last one with this key, in either direction. */
  ghost predicate LastThere<A, B>(entries: seq<(A, B)>, a: A, i: int) {
    0 <= i < |entries| && entries[i].0 == a && forall j :: i < j < |entries| ==> entries[j].0 != a
  }

  ghost predicate LastBack<A, B>(entries: seq<(A, B)>, b: B, i: int) {
    0 <= i < |entries| && entries[i].1 == b && forall j :: i < j < |entries| ==> entries[j].1 != b
  }

  /** Each map holds, for each key, what the last entry with that key wrote. */
  lemma {:induction false} LastWinsThere<A, B>(entries: seq<(A, B)>, a: A) returns (i: int)
    ensures var p := InsertAll(Paired(map[], map[]), entries);
            if a in p.there then LastThere(entries, a, i) && p.there[a] == entries[i].1
            else forall j :: 0 <= j < |entries| ==> entries[j].0 != a
  {
    var n := |entries| - 1;
    if entries == [] {
      i := 0;
    } else if entries[n].0 == a {
      i := n;
    } else {
      i := LastWinsThere(entries[..n], a);
    }
  }

  lemma {:induction false} LastWinsBack<A, B>(entries: seq<(A, B)>, b: B) returns (i: int)
    ensures var p := InsertAll(Paired(map[], map[]), entries);
            if b in p.back then LastBack(entries, b, i) && p.back[b] == entries[i].0
            else forall j :: 0 <= j < |entries| ==> entries[j].1 != b
  {
    var n := |entries| - 1;
    if entries == [] {
      i := 0;
    } else if entries[n].1 == b {
      i := n;
    } else {
      i := LastWinsBack(entries[..n], b);
    }
  }

  /** Every entry that is overwritten in one direction is overwritten in the other as well. */
  ghost predicate OverwrittenTogether<A, B>(entries: seq<(A, B)>) {
    forall i :: 0 <= i < |entries| ==>
      (LastThere(entries, entries[i].0, i) <==> LastBack(entries, entries[i].1, i))
  }

  /** Nothing checks for duplicates. The maps end up inverse to each other exactly when every
      entry that is overwritten in one direction is overwritten in the other as well. */
  lemma {:induction false} InverseIff<A(!new), B(!new)>(entries: seq<(A, B)>)
    ensures MutuallyInverse(InsertAll(Paired(map[], map[]), entries)) <==> OverwrittenTogether(entries)
  {
    hide InsertAll;
    var p := InsertAll<A, B>(Paired(map[], map[]), entries);
    if MutuallyInverse(p) {
      forall i | 0 <= i < |entries|
        ensures LastThere(entries, entries[i].0, i) <==> LastBack(entries, entries[i].1, i)
      {
        InverseEntry(entries, i);
      }
    }
    if OverwrittenTogether(entries) {
      forall a | a in p.there
        ensures p.there[a] in p.back && p.back[p.there[a]] == a
      {
        var i := LastWinsThere(entries, a);
        var k := LastWinsBack(entries, entries[i].1);
      }
      forall b | b in p.back
        ensures p.back[b] in p.there && p.there[p.back[b]] == b
      {
        var i := LastWinsBack(entries, b);
        var k := LastWinsThere(entries, entries[i].0);
      }
    }
  }

  lemma {:induction false} InverseEntry<A(!new), B(!new)>(entries: seq<(A, B)>, i: nat)
    requires MutuallyInverse(InsertAll(Paired(map[], map[]), entries)) && i < |entries|
    ensures LastThere(entries, entries[i].0, i) <==> LastBack(entries, entries[i].1, i)
  {
    hide InsertAll;
    var j := LastWinsThere(entries, entries[i].0);
    var k := LastWinsBack(entries, entries[i].1);
  }

  // ------------------------------------------------------------------ the two registries

  /** The entry an asset makes: its upper-cased symbol and its id. */
  function AssetEntry(id: nat, metadata: AssetMetadata): (string, nat)
    requires metadata.symbol.Some?
  {
    (Upper(metadata.symbol.value), id)
  }

  /** The assets that `extend` gets through before it meets one whose symbol is not text. */
  function Readable(assets: seq<(nat, AssetMetadata)>): (r: seq<(string, nat)>)
    ensures |r| <= |assets|
    ensures |r| < |assets| <==> exists i :: 0 <= i < |assets| && assets[i].1.symbol.None?
  {
    if assets == [] || assets[0].1.symbol.None? then []
    else
      var rest := Readable(assets[1..]);
      assert forall i :: 0 < i < |assets| ==> assets[i] == assets[1..][i - 1];
      [AssetEntry(assets[0].0, assets[0].1)] + rest
  }

  ghost predicate AllText(metadataLookup: map<nat, AssetMetadata>) {
    forall id :: id in metadataLookup ==> metadataLookup[id].symbol.Some?
  }

  /** An asset registry as upper-cased symbols against ids. */
  ghost function AssetView(symbolLookup: map<string, nat>, metadataLookup: map<nat, AssetMetadata>): Paired<string, nat>
    requires AllText(metadataLookup)
  {
    Paired(symbolLookup, map id | id in metadataLookup :: Upper(metadataLookup[id].symbol.value))
  }

  lemma {:induction false} ReadableStep(assets: seq<(nat, AssetMetadata)>)
    ensures assets == [] || assets[0].1.symbol.None? ==> Readable(assets) == []
    ensures assets != [] && assets[0].1.symbol.Some? ==>
              Readable(assets) == [AssetEntry(assets[0].0, assets[0].1)] + Readable(assets[1..])
  {
  }

  lemma {:induction false} InsertNone<A, B>(p: Paired<A, B>)
    ensures InsertAll(p, []) == p
  {
  }

  lemma {:induction false} InsertOneMore<A, B>(p: Paired<A, B>, entries: seq<(A, B)>, entry: (A, B))
    ensures InsertAll(p, entries + [entry]) == Insert(InsertAll(p, entries), entry)
  {
    assert (entries + [entry])[..|entries|] == entries;
  }

  class AssetRegistry {
    var symbolLookup: map<string, nat>
    var metadataLookup: map<nat, AssetMetadata>

    constructor ()
      ensures Valid() && View() == Paired(map[], map[])
    {
      symbolLookup := map[];
      metadataLookup := map[];
    }

    ghost predicate Valid()
      reads this
    {
      AllText(metadataLookup)
    }

    ghost function View(): Paired<string, nat>
      requires Valid()
      reads this
    {
      AssetView(symbolLookup, metadataLookup)
    }

    method InnerInsert(id: nat, metadata: AssetMetadata) returns (r: Result<()>)
      requires Valid()
      modifies this
      ensures Valid()
      ensures r == if metadata.symbol.None? then Err(InvalidCurrency) else Ok(())
      ensures r.Err? ==> symbolLookup == old(symbolLookup) && View() == old(View())
      ensures r.Err? ==> metadataLookup == old(metadataLookup)
      ensures r.Ok? ==> metadataLookup == old(metadataLookup)[id := metadata]
      ensures r.Ok? ==> View() == Insert(old(View()), AssetEntry(id, metadata))
    {
      if metadata.symbol.None? {
        return Err(InvalidCurrency);
      }
      symbolLookup := symbolLookup[Upper(metadata.symbol.value) := id];
      metadataLookup := metadataLookup[id := metadata];
      return Ok(());
    }

    /** Inserts in order and stops at the first asset it cannot read, keeping those before it. */
    method Extend(assets: seq<(nat, AssetMetadata)>) returns (r: Result<()>)
      requires Valid()
      modifies this
      ensures Valid()
      ensures View() == InsertAll(old(View()), Readable(assets))
      ensures r == if |Readable(assets)| == |assets| then Ok(()) else Err(InvalidCurrency)
    {
      hide View, Readable, InsertAll;
      var i := 0;
      ghost var done: seq<(string, nat)> := [];
      InsertNone(View());
      while i < |assets|
        invariant 0 <= i <= |assets| && |done| == i
        invariant Valid()
        invariant Readable(assets) == done + Readable(assets[i..])
        invariant View() == InsertAll(old(View()), done)
      {
        ReadableStep(assets[i..]);
        r := InnerInsert(assets[i].0, assets[i].1);
        if r.Err? {
          assert Readable(assets) == done;
          return;
        }
        ghost var entry := AssetEntry(assets[i].0, assets[i].1);
        InsertOneMore(old(View()), done, entry);
        assert assets[i..][1..] == assets[i + 1..];
        done := done + [entry];
        i := i + 1;
      }
      ReadableStep(assets[i..]);
      assert Readable(assets) == done;
      return Ok(());
    }
  }

  class LendingAssets {
    var underlyingToLendToken: map<CurrencyId, CurrencyId>
    var lendTokenToUnderlying: map<CurrencyId, CurrencyId>

    constructor ()
      ensures View() == Paired(map[], map[])
    {
      underlyingToLendToken := map[];
      lendTokenToUnderlying := map[];
    }

    ghost function View(): Paired<CurrencyId, CurrencyId>
      reads this
    {
      Paired(underlyingToLendToken, lendTokenToUnderlying)
    }

    method InsertMarket(underlying: CurrencyId, lendToken: CurrencyId)
      modifies this
      ensures View() == Insert(old(View()), (underlying, lendToken))
    {
      underlyingToLendToken := underlyingToLendToken[underlying := lendToken];
      lendTokenToUnderlying := lendTokenToUnderlying[lendToken := underlying];
    }

    method Extend(assets: seq<(CurrencyId, CurrencyId)>)
      modifies this
      ensures View() == InsertAll(old(View()), assets)
    {
      for i := 0 to |assets|
        invariant View() == InsertAll(old(View()), assets[..i])
      {
        assert assets[..i + 1][..i] == assets[..i];
        InsertMarket(assets[i].0, assets[i].1);
      }
      assert assets[..|assets|] == assets;
    }
  }

  // ------------------------------------------------------------------ parsing

  /** The state both directions read: the symbol table, the metadata and the loan markets. */
  datatype Registries = Registries(
    symbolLookup: map<string, nat>,
    metadataLookup: map<nat, AssetMetadata>,
    lending: Paired<CurrencyId, CurrencyId>)

  function TokenName(t: TokenSymbol): string {
    match t
    case DOT => "DOT" case IBTC => "IBTC" case INTR => "INTR" case KSM => "KSM"
    case KBTC => "KBTC" case KINT => "KINT" case GGXT => "GGXT" case GGX => "GGX"
  }

  /** The hardcoded currencies, tried in order. */
  function Hardcoded(s: string): (r: Option<TokenSymbol>)
    ensures r.Some? ==> TokenName(r.value) == s
    ensures r.None? ==> forall t :: TokenName(t) != s
  {
    if s == "DOT" then Some(DOT) else if s == "IBTC" then Some(IBTC)
    else if s == "INTR" then Some(INTR) else if s == "KSM" then Some(KSM)
    else if s == "KBTC" then Some(KBTC) else if s == "KINT" then Some(KINT)
    else if s == "GGXT" then Some(GGXT) else if s == "GGX" then Some(GGX) else None
  }

  const PREFIX: char := 'Q'

  function FromSymbol(r: Registries, symbol: string): Result<CurrencyId>
    decreases |symbol|, 1
  {
    var s := Upper(symbol);
    match Hardcoded(s)
    case Some(t) => Ok(Token(t))
    case None =>
      match FromLendTokenSymbol(r, s)
      case Some(c) => Ok(c)
      case None => if s in r.symbolLookup then Ok(ForeignAsset(r.symbolLookup[s])) else Err(AssetNotFound)
  }

  function FromLendTokenSymbol(r: Registries, symbol: string): Option<CurrencyId>
    decreases |symbol|, 0
  {
    var s := Upper(symbol);
    if s != [] && s[0] == PREFIX then
      match FromSymbol(r, s[1..])
      case Ok(underlying) =>
        if underlying in r.lending.there then Some(r.lending.there[underlying]) else None
      case Err(_) => None
    else None
  }

  // ------------------------------------------------------------------ printing

  /** Following underlying currencies from `c` ends within `depth` steps. The recursion of
      `symbol` terminates exactly on these. */
  ghost predicate Grounded(r: Registries, c: CurrencyId, depth: nat)
    decreases depth
  {
    c.LendToken? && c in r.lending.back ==> depth > 0 && Grounded(r, r.lending.back[c], depth - 1)
  }

  ghost function Symbol(r: Registries, c: CurrencyId, depth: nat): Result<string>
    requires Grounded(r, c, depth)
    decreases depth
  {
    match c
    case Token(t) => Ok(TokenName(t))
    case ForeignAsset(id) =>
      if id !in r.metadataLookup then Err(AssetNotFound)
      else if r.metadataLookup[id].symbol.None? then Err(InvalidCurrency)
      else Ok(r.metadataLookup[id].symbol.value)
    case LendToken(_) =>
      if c !in r.lending.back then Err(AssetNotFound)
      else
        (match Symbol(r, r.lending.back[c], depth - 1)
         case Ok(s) => Ok([PREFIX] + s)
         case Err(e) => Err(e))
    case OtherToken(_) => Err(TokenUnsupported)
  }

  /** The result does not depend on how far printing was allowed to go. */
  lemma {:induction false} SymbolUnique(r: Registries, c: CurrencyId, d: nat, d': nat)
    requires Grounded(r, c, d) && d <= d'
    ensures Grounded(r, c, d') && Symbol(r, c, d) == Symbol(r, c, d')
    decreases d
  {
    if c.LendToken? && c in r.lending.back {
      SymbolUnique(r, r.lending.back[c], d - 1, d' - 1);
    }
  }

  // ------------------------------------------------------------------ round trips

  /** The symbol table and the metadata agree in both directions. */
  ghost predicate AssetsInverse(r: Registries) {
    && (forall s :: s in r.symbolLookup ==>
          && r.symbolLookup[s] in r.metadataLookup
          && r.metadataLookup[r.symbolLookup[s]].symbol.Some?
          && Upper(r.metadataLookup[r.symbolLookup[s]].symbol.value) == s)
    && (forall id :: id in r.metadataLookup && r.metadataLookup[id].symbol.Some? ==>
          var s := Upper(r.metadataLookup[id].symbol.value);
          s in r.symbolLookup && r.symbolLookup[s] == id)
  }

  ghost predicate MarketsInverse(r: Registries) {
    && MutuallyInverse(r.lending)
    && (forall c :: c in r.lending.there ==> r.lending.there[c].LendToken?)
  }

  /** No foreign symbol is caught by the branches tried before the symbol table. */
  ghost predicate Unshadowed(r: Registries) {
    forall s :: s in r.symbolLookup ==> Hardcoded(s).None? && FromLendTokenSymbol(r, s).None?
  }

  lemma {:induction false} UpperPrefixed(s: string)
    ensures Upper([PREFIX] + s) == [PREFIX] + Upper(s)
    ensures Upper([PREFIX] + s)[1..] == Upper(s) && Upper(Upper(s)) == Upper(s)
  {
  }

  lemma {:induction false} ParseToken(r: Registries, t: TokenSymbol, symbol: string)
    requires Upper(symbol) == Upper(TokenName(t))
    ensures FromSymbol(r, symbol) == Ok(Token(t))
  {
    assert Upper(TokenName(t)) == TokenName(t);
  }

  /** Past the other branches, the symbol table decides. */
  lemma {:induction false} ParseForeign(r: Registries, symbol: string)
    requires Hardcoded(Upper(symbol)).None? && FromLendTokenSymbol(r, Upper(symbol)).None?
    ensures var s := Upper(symbol);
            FromSymbol(r, symbol) == if s in r.symbolLookup then Ok(ForeignAsset(r.symbolLookup[s]))
                                     else Err(AssetNotFound)
  {
    UpperTwice(symbol);
  }

  /** The hardcoded currencies under their symbols. */
  lemma {:induction false} HardcodedSymbols(r: Registries)
    ensures FromSymbol(r, "DOT") == Ok(Token(DOT)) && FromSymbol(r, "IBTC") == Ok(Token(IBTC))
    ensures FromSymbol(r, "INTR") == Ok(Token(INTR)) && FromSymbol(r, "KSM") == Ok(Token(KSM))
    ensures FromSymbol(r, "KBTC") == Ok(Token(KBTC)) && FromSymbol(r, "KINT") == Ok(Token(KINT))
    ensures FromSymbol(r, "GGXT") == Ok(Token(GGXT)) && FromSymbol(r, "GGX") == Ok(Token(GGX))
  {
    hide FromSymbol, Upper;
    ParseToken(r, DOT, "DOT");
    ParseToken(r, IBTC, "IBTC");
    ParseToken(r, INTR, "INTR");
    ParseToken(r, KSM, "KSM");
    ParseToken(r, KBTC, "KBTC");
    ParseToken(r, KINT, "KINT");
    ParseToken(r, GGXT, "GGXT");
    ParseToken(r, GGX, "GGX");
  }

  /** With the prefix, the loan market of what the rest parses to decides first. */
  lemma {:induction false} ParsePrefixed(r: Registries, symbol: string)
    requires symbol != [] && Upper(symbol)[0] == PREFIX
    ensures var s := Upper(symbol);
            var u := FromSymbol(r, s[1..]);
            u.Ok? && u.value in r.lending.there ==> FromSymbol(r, symbol) == Ok(r.lending.there[u.value])
  {
    UpperTwice(symbol);
    assert Hardcoded(Upper(symbol)).None?;
  }

  /** Printing and parsing again gives the currency back, through any depth of prefixes and in
      any letter case. */
  lemma {:induction false} ParsePrinted(r: Registries, c: CurrencyId, depth: nat, symbol: string)
    requires AssetsInverse(r) && MarketsInverse(r) && Unshadowed(r)
    requires Grounded(r, c, depth) && Symbol(r, c, depth).Ok?
    requires Upper(symbol) == Upper(Symbol(r, c, depth).value)
    ensures FromSymbol(r, symbol) == Ok(c)
    decreases depth
  {
    var s := Upper(symbol);
    match c
    case Token(t) => ParseToken(r, t, symbol);
    case ForeignAsset(id) => ParseForeign(r, symbol);
    case LendToken(_) =>
      var u := r.lending.back[c];
      var printed := Symbol(r, u, depth - 1).value;
      UpperPrefixed(printed);
      ParsePrinted(r, u, depth - 1, s[1..]);
      ParsePrefixed(r, symbol);
  }

  /** Whatever parses prints as the text it was parsed from, up to letter case, and printing it
      terminates within the length of that text. Foreign symbols need no restriction here. */
  lemma {:induction false} PrintParsed(r: Registries, symbol: string)
    requires AssetsInverse(r) && MarketsInverse(r)
    requires FromSymbol(r, symbol).Ok?
    ensures var c := FromSymbol(r, symbol).value;
            && Grounded(r, c, |symbol|)
            && Symbol(r, c, |symbol|).Ok?
            && Upper(Symbol(r, c, |symbol|).value) == Upper(symbol)
    decreases |symbol|
  {
    var s := Upper(symbol);
    UpperTwice(symbol);
    var c := FromSymbol(r, symbol).value;
    if Hardcoded(s).Some? {
      assert Upper(TokenName(Hardcoded(s).value)) == s;
    } else if FromLendTokenSymbol(r, s).Some? {
      UpperTail(symbol);
      PrintParsed(r, s[1..]);
      var u := FromSymbol(r, s[1..]).value;
      assert c == r.lending.there[u] && r.lending.back[c] == u;
      var printed := Symbol(r, u, |symbol| - 1).value;
      UpperTail([PREFIX] + printed);
      assert ([PREFIX] + printed)[1..] == printed;
      assert Upper([PREFIX] + printed) == [PREFIX] + Upper(printed);
      assert s == [PREFIX] + s[1..];
    }
  }

  /** Both together: parsing yields a currency exactly for the spellings of its printed symbol. */
  lemma {:induction false} ParsesIffPrints(r: Registries, c: CurrencyId, symbol: string)
    requires AssetsInverse(r) && MarketsInverse(r) && Unshadowed(r)
    ensures FromSymbol(r, symbol) == Ok(c)
            <==> && Grounded(r, c, |symbol|)
                 && Symbol(r, c, |symbol|).Ok?
                 && Upper(Symbol(r, c, |symbol|).value) == Upper(symbol)
  {
    if FromSymbol(r, symbol) == Ok(c) {
      PrintParsed(r, symbol);
    }
    if Grounded(r, c, |symbol|) && Symbol(r, c, |symbol|).Ok?
       && Upper(Symbol(r, c, |symbol|).value) == Upper(symbol) {
      ParsePrinted(r, c, |symbol|, symbol);
    }
  }

  /** Every currency that prints parses back from any spelling of what it prints. */
  ghost predicate RoundTrips(r: Registries) {
    forall c, depth: nat, symbol: string ::
      Grounded(r, c, depth) && Spells(r, c, depth, symbol) ==> FromSymbol(r, symbol) == Ok(c)
  }

  ghost predicate Spells(r: Registries, c: CurrencyId, depth: nat, symbol: string)
    requires Grounded(r, c, depth)
  {
    Symbol(r, c, depth).Ok? && Upper(symbol) == Upper(Symbol(r, c, depth).value)
  }

  /** The round trip holds exactly for registries in which no foreign symbol is shadowed: neither by
      a hardcoded symbol nor by the lend token its spelling stands for. */
  lemma {:induction false} RoundTripsIff(r: Registries)
    requires AssetsInverse(r) && MarketsInverse(r)
    ensures RoundTrips(r) <==> Unshadowed(r)
  {
    if Unshadowed(r) {
      forall c, depth: nat, symbol: string | Grounded(r, c, depth) && Spells(r, c, depth, symbol)
        ensures FromSymbol(r, symbol) == Ok(c)
      {
        ParsePrinted(r, c, depth, symbol);
      }
    }
    if RoundTrips(r) {
      forall s | s in r.symbolLookup ensures Hardcoded(s).None? && FromLendTokenSymbol(r, s).None? {
        ForeignParsesBack(r, s);
      }
    }
  }

  lemma {:induction false} ForeignParsesBack(r: Registries, s: string)
    requires AssetsInverse(r) && MarketsInverse(r) && RoundTrips(r) && s in r.symbolLookup
    ensures Hardcoded(s).None? && FromLendTokenSymbol(r, s).None?
  {
    var c := ForeignAsset(r.symbolLookup[s]);
    UpperTwice(r.metadataLookup[c.foreignId].symbol.value);
    assert Grounded(r, c, 0) && Spells(r, c, 0, s);
    assert FromSymbol(r, s) == Ok(c);
  }

  /** Registries filled from their lists meet the conditions above exactly when no entry is
      overwritten in one direction only; in particular when no key is used twice. */
  lemma {:induction false} FilledRegistriesInverseIff(
      r: Registries, assets: seq<(nat, AssetMetadata)>, markets: seq<(CurrencyId, CurrencyId)>)
    requires AllText(r.metadataLookup)
    requires AssetView(r.symbolLookup, r.metadataLookup) == InsertAll(Paired(map[], map[]), Readable(assets))
    requires r.lending == InsertAll(Paired(map[], map[]), markets)
    ensures AssetsInverse(r) <==> OverwrittenTogether(Readable(assets))
    ensures MutuallyInverse(r.lending) <==> OverwrittenTogether(markets)
  {
    hide InsertAll, OverwrittenTogether;
    InverseIff(Readable(assets));
    InverseIff(markets);
    var v := AssetView(r.symbolLookup, r.metadataLookup);
    assert forall id :: id in v.back <==> id in r.metadataLookup;
  }

  /** The prefix condition is needed: a foreign asset named `QDOT` is shadowed as soon as `DOT` has
      a loan market. */
  lemma {:induction false} PrefixedForeignIsShadowed(lend: CurrencyId)
    requires lend.LendToken?
    ensures var r := Registries(map["QDOT" := 7], map[7 := AssetMetadata(Some("QDOT"), 10)],
                                Paired(map[Token(DOT) := lend], map[lend := Token(DOT)]));
            && AssetsInverse(r) && MarketsInverse(r)
            && Symbol(r, ForeignAsset(7), 0) == Ok("QDOT")
            && FromSymbol(r, "QDOT") == Ok(lend)
  {
    var r := Registries(map["QDOT" := 7], map[7 := AssetMetadata(Some("QDOT"), 10)],
                        Paired(map[Token(DOT) := lend], map[lend := Token(DOT)]));
    assert Upper("QDOT") == "QDOT" && Upper("DOT") == "DOT";
    assert "QDOT"[1..] == "DOT";
    ParseToken(r, DOT, "DOT");
    ParsePrefixed(r, "QDOT");
  }
}
