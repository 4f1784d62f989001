/**
 * The wire side of the bridge: the availability gate, the relay's REST base
 * address, the key list the read request asks for and its `in.(...)` filter.
 * Everything here is a pure function of the configuration and the caller's keys.
 */
module Wire {
  import opened Wrappers
  import opened Json

  /** The key set watched and fetched when the caller gives none. */
  const DefaultKeys: seq<string> := ["evo_models_data", "evo_feed_data", "evo_project_data", "evo_prof_data"]

  /** Path appended to the project URL to reach the relay's REST interface. */
  const RestSuffix: string := "/rest/v1"

  /** The injected configuration; a field the page leaves out is `None`. */
  datatype Config = Config(supabaseUrl: Option<string>, anonKey: Option<string>)

  /** One outbound request to the relay: an upsert of one row, or a delete of one row. */
  datatype RemoteCall = UpsertRow(key: string, value: Value) | DeleteRow(key: string)

  /** The read request `fetchMany` sends: the REST base and the (not yet URI-encoded) key filter. */
  datatype ReadRequest = ReadRequest(base: string, filter: string)

  /** A configuration field is truthy when it is present and not the empty string. */
  predicate Truthy(field: Option<string>)
  {
    match field
    case None => false
    case Some(s) => s != ""
  }

  /** The availability gate: a configuration object exists and both of its fields are truthy. */
  function IsConfigured(cfg: Option<Config>): (r: bool)
    ensures r <==> cfg.Some? && cfg.value.supabaseUrl.Some? && cfg.value.supabaseUrl.value != ""
                   && cfg.value.anonKey.Some? && cfg.value.anonKey.value != ""
    ensures r ==> Truthy(cfg.value.supabaseUrl) && Truthy(cfg.value.anonKey)
  {
    match cfg
    case None => false
    case Some(c) => Truthy(c.supabaseUrl) && Truthy(c.anonKey)
  }

  /** The URL with its whole trailing run of `/` removed. */
  function StripTrailingSlashes(s: string): (r: string)
    ensures r <= s
    ensures r == [] || r[|r| - 1] != '/'
    ensures forall i | |r| <= i < |s| :: s[i] == '/'
    decreases |s|
  {
    if |s| > 0 && s[|s| - 1] == '/' then StripTrailingSlashes(s[..|s| - 1]) else s
  }

  /** The three properties of `StripTrailingSlashes` determine its result. */
  lemma StripTrailingSlashesUnique(s: string, t: string)
    requires t <= s
    requires t == [] || t[|t| - 1] != '/'
    requires forall i | |t| <= i < |s| :: s[i] == '/'
    ensures t == StripTrailingSlashes(s)
  {
  }

  /** The relay's REST base: the project URL without trailing slashes, then `/rest/v1`. */
  function RestBase(url: string): (r: string)
    ensures |r| >= |RestSuffix| && r[|r| - |RestSuffix|..] == RestSuffix
    ensures r[..|r| - |RestSuffix|] <= url
    ensures |r| == |RestSuffix| || r[|r| - |RestSuffix| - 1] != '/'
    ensures forall i | |r| - |RestSuffix| <= i < |url| :: url[i] == '/'
  {
    var stripped := StripTrailingSlashes(url);
    assert (stripped + RestSuffix)[..|stripped|] == stripped;
    stripped + RestSuffix
  }

  /** Adding trailing slashes to the project URL does not change the REST base. */
  lemma RestBaseIgnoresTrailingSlashes(url: string, n: nat)
    ensures RestBase(url + seq(n, _ => '/')) == RestBase(url)
  {
    var s := url + seq(n, _ => '/');
    var t := StripTrailingSlashes(url);
    assert t <= s;
    StripTrailingSlashesUnique(s, t);
  }

  /** The caller's key list, or `DefaultKeys` when it is absent or empty (`keys && keys.length`). */
  function KeyList(keys: seq<string>): (r: seq<string>)
    ensures |r| > 0
    ensures |keys| > 0 ==> r == keys
    ensures |keys| == 0 ==> r == DefaultKeys
  {
    if |keys| > 0 then keys else DefaultKeys
  }

  /** A key with every `"` removed. */
  function StripQuotes(k: string): (r: string)
    ensures '"' !in r
    ensures '"' !in k ==> r == k
  {
    if |k| == 0 then "" else (if k[0] == '"' then "" else [k[0]]) + StripQuotes(k[1..])
  }

  /** Removing quotes keeps every other character, as often as it occurs. */
  lemma {:induction false} StripQuotesKeepsOthers(k: string)
    ensures multiset(StripQuotes(k)) == multiset(k)['"' := 0]
    decreases |k|
  {
    if |k| > 0 {
      assert k == [k[0]] + k[1..];
      StripQuotesKeepsOthers(k[1..]);
    }
  }

  /** Removing quotes works character by character: it distributes over concatenation. */
  lemma {:induction false} StripQuotesAppend(a: string, b: string)
    ensures StripQuotes(a + b) == StripQuotes(a) + StripQuotes(b)
    decreases |a|
  {
    if |a| > 0 {
      var head := if a[0] == '"' then "" else [a[0]];
      assert (a + b)[0] == a[0];
      assert (a + b)[1..] == a[1..] + b;
      assert StripQuotes(a + b) == head + StripQuotes(a[1..] + b);
      StripQuotesAppend(a[1..], b);
      assert StripQuotes(a) == head + StripQuotes(a[1..]);
    } else {
      assert a + b == b;
    }
  }

  /** No key of the list holds a `"`. */
  predicate QuoteFree(list: seq<string>)
  {
    forall i | 0 <= i < |list| :: '"' !in list[i]
  }

  lemma QuoteFreeTail(list: seq<string>)
    requires |list| > 0 && QuoteFree(list)
    ensures QuoteFree(list[1..])
  {
  }

  /** The key list `fetchMany` asks for: `KeyList(keys)` with quotes removed from every key. */
  function FetchKeys(keys: seq<string>): (r: seq<string>)
    ensures |r| == |KeyList(keys)| > 0
    ensures forall i | 0 <= i < |r| :: r[i] == StripQuotes(KeyList(keys)[i])
    ensures QuoteFree(r)
    ensures QuoteFree(KeyList(keys)) ==> r == KeyList(keys)
  {
    var list := KeyList(keys);
    var r := seq(|list|, i requires 0 <= i < |list| => StripQuotes(list[i]));
    assert QuoteFree(list) ==> r == list by {
      if QuoteFree(list) {
        forall i | 0 <= i < |r| ensures r[i] == list[i] {
          assert '"' !in list[i];
        }
      }
    }
    r
  }

  /** The default keys hold no quotes, so `fetchMany` asks for them unchanged. */
  lemma DefaultKeysQuoteFree()
    ensures QuoteFree(DefaultKeys)
    ensures FetchKeys([]) == DefaultKeys
  {
  }

  /** A key between double quotes. */
  function Quoted(k: string): string
  {
    "\"" + k + "\""
  }

  /** The quoted keys joined by `,` (JavaScript's `list.map(quote).join(",")`). */
  function JoinQuoted(list: seq<string>): string
    decreases |list|
  {
    if |list| == 0 then ""
    else if |list| == 1 then Quoted(list[0])
    else Quoted(list[0]) + "," + JoinQuoted(list[1..])
  }

  /** The PostgREST membership filter `in.("k1","k2",...)`. */
  function InFilter(list: seq<string>): (r: string)
    ensures |r| >= 5 && r[..4] == "in.(" && r[|r| - 1] == ')'
  {
    "in.(" + JoinQuoted(list) + ")"
  }

  /** Index of the first `"` in `s`, if any. */
  function FirstQuote(s: string): (r: Option<nat>)
    ensures r.None? <==> '"' !in s
    ensures r.Some? ==> r.value < |s| && s[r.value] == '"' && '"' !in s[..r.value]
    decreases |s|
  {
    if |s| == 0 then None
    else if s[0] == '"' then Some(0)
    else
      match FirstQuote(s[1..])
      case None => None
      case Some(j) =>
        assert s[..j + 1] == [s[0]] + s[1..][..j];
        Some(j + 1)
  }

  /** Reads back `"k1","k2",...`: each item runs from a `"` to the next `"`. */
  function ParseQuotedItems(s: string): Option<seq<string>>
    decreases |s|
  {
    if |s| == 0 || s[0] != '"' then None
    else
      match FirstQuote(s[1..])
      case None => None
      case Some(j) =>
        var item := s[1..j + 1];
        var rest := s[j + 2..];
        if rest == "" then Some([item])
        else if rest[0] != ',' then None
        else
          match ParseQuotedItems(rest[1..])
          case None => None
          case Some(items) => Some([item] + items)
  }

  /** Reads back a filter `in.(...)` into its list of keys. */
  function ParseInFilter(f: string): Option<seq<string>>
  {
    if |f| < 5 || f[..4] != "in.(" || f[|f| - 1] != ')' then None
    else
      var body := f[4..|f| - 1];
      if body == "" then Some([]) else ParseQuotedItems(body)
  }

  lemma {:induction false} FirstQuoteAfter(k: string, t: string)
    requires '"' !in k
    ensures FirstQuote(k + "\"" + t) == Some(|k|)
    decreases |k|
  {
    var s := k + "\"" + t;
    if |k| > 0 {
      assert s[0] == k[0];
      assert s[1..] == k[1..] + "\"" + t;
      FirstQuoteAfter(k[1..], t);
    } else {
      assert s[0] == '"';
    }
  }

  /** One quoted key followed by `tail`: the item is the key and parsing goes on with `tail`. */
  lemma QuotedItemSplit(k: string, tail: string)
    requires '"' !in k
    ensures var s := Quoted(k) + tail;
      FirstQuote(s[1..]) == Some(|k|) && s[1..|k| + 1] == k && s[|k| + 2..] == tail
  {
    var s := Quoted(k) + tail;
    assert s[1..] == k + "\"" + tail;
    FirstQuoteAfter(k, tail);
    assert s[1..|k| + 1] == k;
    assert s[|k| + 2..] == tail;
  }

  lemma ParseQuotedLast(k: string)
    requires '"' !in k
    ensures ParseQuotedItems(Quoted(k)) == Some([k])
  {
    QuotedItemSplit(k, "");
    assert Quoted(k) + "" == Quoted(k);
  }

  lemma ParseQuotedCons(k: string, rest: string)
    requires '"' !in k
    ensures ParseQuotedItems(Quoted(k) + "," + rest) ==
      match ParseQuotedItems(rest)
      case None => None
      case Some(items) => Some([k] + items)
  {
    var tail := "," + rest;
    QuotedItemSplit(k, tail);
    assert Quoted(k) + "," + rest == Quoted(k) + tail;
    assert tail[1..] == rest;
  }

  lemma {:induction false} ParseJoinQuoted(list: seq<string>)
    requires |list| > 0 && QuoteFree(list)
    ensures ParseQuotedItems(JoinQuoted(list)) == Some(list)
    decreases |list|
  {
    if |list| == 1 {
      ParseQuotedLast(list[0]);
      assert list == [list[0]];
    } else {
      var k, tail := list[0], list[1..];
      assert '"' !in k;
      QuoteFreeTail(list);
      ParseJoinQuoted(tail);
      var rest := JoinQuoted(tail);
      assert ParseQuotedItems(rest) == Some(tail);
      assert JoinQuoted(list) == Quoted(k) + "," + rest;
      ParseQuotedCons(k, rest);
      assert [k] + tail == list;
    }
  }

  /**
   * The filter is unambiguous: for quote-free keys it reads back into exactly the
   * keys it was built from, so its only `"` characters are the item delimiters.
   */
  lemma InFilterRoundTrip(list: seq<string>)
    requires QuoteFree(list)
    ensures ParseInFilter(InFilter(list)) == Some(list)
  {
    var f := InFilter(list);
    assert f[..4] == "in.(";
    assert f[4..|f| - 1] == JoinQuoted(list);
    if |list| > 0 {
      ParseJoinQuoted(list);
    }
  }

  /** Every `"` of the filter of quote-free keys is one of the two delimiters of some key. */
  lemma {:induction false} InFilterQuoteCount(list: seq<string>)
    requires QuoteFree(list)
    ensures multiset(InFilter(list))['"'] == 2 * |list|
  {
    JoinQuotedQuoteCount(list);
  }

  lemma {:induction false} JoinQuotedQuoteCount(list: seq<string>)
    requires QuoteFree(list)
    ensures multiset(JoinQuoted(list))['"'] == 2 * |list|
    decreases |list|
  {
    if |list| == 1 {
      assert multiset(list[0])['"'] == 0;
    } else if |list| > 1 {
      assert multiset(list[0])['"'] == 0;
      QuoteFreeTail(list);
      JoinQuotedQuoteCount(list[1..]);
    }
  }

  /**
   * The read request `fetchMany(keys)` would send: none when the bridge is not
   * configured; otherwise the REST base and a filter that reads back into the
   * quote-stripped key list.
   */
  function FetchRequest(cfg: Option<Config>, keys: seq<string>): (r: Option<ReadRequest>)
    ensures r.None? <==> !IsConfigured(cfg)
    ensures r.Some? ==> r.value.base == RestBase(cfg.value.supabaseUrl.value)
    ensures r.Some? ==> ParseInFilter(r.value.filter) == Some(FetchKeys(keys))
    ensures r.Some? ==> multiset(r.value.filter)['"'] == 2 * |KeyList(keys)|
  {
    if !IsConfigured(cfg) then None
    else
      var list := FetchKeys(keys);
      InFilterRoundTrip(list);
      InFilterQuoteCount(list);
      Some(ReadRequest(RestBase(cfg.value.supabaseUrl.value), InFilter(list)))
  }
}
