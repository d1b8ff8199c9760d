/**
 * The SearXNG client (src/lib/searxng.ts): the ordered query parameters of
 * the search request, their `application/x-www-form-urlencoded`
 * serialization into the request URL (in the manner of the WHATWG URL
 * Standard, section 5.2), and the defaulting of the reply to empty lists.
 */
module Searxng {
  import opened Wrappers

  // ------------------------------------------------------------ text helpers

  /** `items.join(sep)`. */
  function Join(items: seq<string>, sep: char): string {
    if |items| == 0 then ""
    else if |items| == 1 then items[0]
    else items[0] + [sep] + Join(items[1..], sep)
  }

  /** Splitting at every `sep`; an empty text is one empty piece. */
  function Split(s: string, sep: char): (pieces: seq<string>)
    ensures |pieces| > 0
  {
    if s == [] then [""]
    else if s[0] == sep then [""] + Split(s[1..], sep)
    else
      var rest := Split(s[1..], sep);
      [[s[0]] + rest[0]] + rest[1..]
  }

  lemma {:induction false} SplitNoSep(s: string, sep: char)
    requires sep !in s
    ensures Split(s, sep) == [s]
  {
    if s != [] {
      SplitNoSep(s[1..], sep);
      assert [s[0]] + s[1..] == s;
    }
  }

  lemma {:induction false} SplitAtFirst(a: string, t: string, sep: char)
    requires sep !in a
    ensures Split(a + [sep] + t, sep) == [a] + Split(t, sep)
  {
    if a == [] {
      assert a + [sep] + t == [sep] + t;
      assert ([sep] + t)[1..] == t;
    } else {
      var s := a + [sep] + t;
      assert s[0] == a[0] && s[1..] == a[1..] + [sep] + t;
      SplitAtFirst(a[1..], t, sep);
      assert [a[0]] + a[1..] == a;
    }
  }

  /** Joining pieces that do not contain the separator can be undone by splitting. */
  lemma {:induction false} SplitJoin(items: seq<string>, sep: char)
    requires |items| > 0 && forall i :: 0 <= i < |items| ==> sep !in items[i]
    ensures Split(Join(items, sep), sep) == items
  {
    if |items| == 1 {
      SplitNoSep(items[0], sep);
    } else {
      SplitAtFirst(items[0], Join(items[1..], sep), sep);
      SplitJoin(items[1..], sep);
      assert [items[0]] + items[1..] == items;
    }
  }

  /** The decimal digits of a natural number, without leading zeros. */
  function Digits(n: nat): (s: string)
    ensures |s| > 0 && forall i :: 0 <= i < |s| ==> '0' <= s[i] <= '9'
    ensures |s| > 1 ==> s[0] != '0'
  {
    if n < 10 then [('0' as int + n) as char]
    else Digits(n / 10) + [('0' as int + n % 10) as char]
  }

  /** The number a string of decimal digits denotes. */
  function DigitsValue(s: string): nat
    requires forall i :: 0 <= i < |s| ==> '0' <= s[i] <= '9'
  {
    if s == [] then 0
    else DigitsValue(s[..|s| - 1]) * 10 + (s[|s| - 1] as int - '0' as int)
  }

  lemma {:induction false} DigitsRoundTrip(n: nat)
    ensures DigitsValue(Digits(n)) == n
  {
    if n >= 10 {
      var s := Digits(n);
      assert s[..|s| - 1] == Digits(n / 10);
      DigitsRoundTrip(n / 10);
    }
  }

  /** `String(n)` for an integer: an optional minus sign, then the digits. */
  function DecimalString(n: int): string {
    if n < 0 then "-" + Digits(-n) else Digits(n)
  }

  /** Reading a decimal string back. */
  function ParseDecimal(s: string): Option<int> {
    if |s| > 0 && s[0] == '-' then
      if |s| > 1 && forall i :: 1 <= i < |s| ==> '0' <= s[i] <= '9' then Some(0 - DigitsValue(s[1..]) as int) else None
    else if |s| > 0 && forall i :: 0 <= i < |s| ==> '0' <= s[i] <= '9' then Some(DigitsValue(s) as int)
    else None
  }

  /** A digit string reads back as its value, with or without a leading minus sign. */
  lemma ParseDigits(s: string, m: nat)
    requires |s| > 0 && forall i :: 0 <= i < |s| ==> '0' <= s[i] <= '9'
    requires DigitsValue(s) == m
    ensures ParseDecimal(s) == Some(m)
    ensures ParseDecimal("-" + s) == Some(-(m as int))
  {
    var t := "-" + s;
    assert t[1..] == s;
  }

  /** `String(n)` loses nothing. */
  lemma DecimalRoundTrip(n: int)
    ensures ParseDecimal(DecimalString(n)) == Some(n)
  {
    var m: nat := if n < 0 then -n else n;
    DigitsRoundTrip(m);
    ParseDigits(Digits(m), m);
  }

  // --------------------------------------------------------------- parameters

  /** An option value as `Object.entries` yields it. */
  datatype OptionValue = Strings(items: seq<string>) | Text(text: string) | Number(n: int) | Null | Undefined

  /** `SearxngSearchOptions` as its entries, in their order. */
  type Options = seq<(string, OptionValue)>

  /** What is appended for one option: arrays joined with `,`, `undefined` skipped, `String(value)` otherwise. */
  function OptionParam(entry: (string, OptionValue)): seq<(string, string)> {
    match entry.1
    case Strings(items) => [(entry.0, Join(items, ','))]
    case Text(text) => [(entry.0, text)]
    case Number(n) => [(entry.0, DecimalString(n))]
    case Null => [(entry.0, "null")]
    case Undefined => []
  }

  /** The parameters the `forEach` appends, in entry order. */
  function OptionParams(entries: Options): seq<(string, string)> {
    if entries == [] then []
    else OptionParams(entries[..|entries| - 1]) + OptionParam(entries[|entries| - 1])
  }

  /** `format=json`, then `q`, then the options (none when `opts` is absent). */
  function SearchParams(query: string, opts: Option<Options>): seq<(string, string)> {
    [("format", "json"), ("q", query)] + OptionParams(opts.GetOr([]))
  }

  /** The query is built with `url.searchParams.append` calls in this order. */
  method BuildParams(query: string, opts: Option<Options>) returns (params: seq<(string, string)>)
    ensures params == SearchParams(query, opts)
  {
    params := [("format", "json")];
    params := params + [("q", query)];
    if opts.Some? {
      var entries := opts.value;
      for i := 0 to |entries|
        invariant params == [("format", "json"), ("q", query)] + OptionParams(entries[..i])
      {
        var (key, value) := entries[i];
        match value {
          case Strings(items) => params := params + [(key, Join(items, ','))];
          case Undefined =>
          case Text(text) => params := params + [(key, text)];
          case Number(n) => params := params + [(key, DecimalString(n))];
          case Null => params := params + [(key, "null")];
        }
        assert entries[..i + 1][..i] == entries[..i];
      }
      assert entries[..|entries|] == entries;
    }
  }

  /** The options contribute their parameters entry by entry, in order. */
  lemma {:induction false} OptionParamsAppend(a: Options, b: Options)
    ensures OptionParams(a + b) == OptionParams(a) + OptionParams(b)
  {
    if b == [] {
      assert a + b == a;
    } else {
      var init, last := b[..|b| - 1], b[|b| - 1];
      assert (a + b)[..|a + b| - 1] == a + init && (a + b)[|a + b| - 1] == last;
      assert OptionParams(a + b) == OptionParams(a + init) + OptionParam(last);
      assert OptionParams(b) == OptionParams(init) + OptionParam(last);
      OptionParamsAppend(a, init);
      assert OptionParams(a) + OptionParams(init) + OptionParam(last) == OptionParams(a) + (OptionParams(init) + OptionParam(last));
    }
  }

  /**
   * An array becomes exactly one comma-joined parameter, from which the items
   * can be recovered when none contains a comma; `undefined` adds nothing.
   */
  lemma OptionParamCases(key: string, value: OptionValue)
    ensures value.Strings? ==> OptionParams([(key, value)]) == [(key, Join(value.items, ','))]
    ensures value.Strings? && |value.items| > 0 && (forall i :: 0 <= i < |value.items| ==> ',' !in value.items[i]) ==>
      Split(OptionParams([(key, value)])[0].1, ',') == value.items
    ensures value.Undefined? ==> OptionParams([(key, value)]) == []
    ensures value.Number? ==> |OptionParams([(key, value)])| == 1 && ParseDecimal(OptionParams([(key, value)])[0].1) == Some(value.n)
  {
    assert [(key, value)][..0] == [];
    if value.Strings? && |value.items| > 0 && (forall i :: 0 <= i < |value.items| ==> ',' !in value.items[i]) {
      SplitJoin(value.items, ',');
    }
    if value.Number? {
      DecimalRoundTrip(value.n);
    }
  }

  // ----------------------------------------------------------------- encoding

  type Byte = b: int | 0 <= b < 256

  /** The UTF-8 encoding of one Unicode scalar value. */
  function Utf8(c: char): (bytes: seq<Byte>)
    ensures 1 <= |bytes| <= 4
  {
    var n := c as int;
    if n < 0x80 then [n]
    else if n < 0x800 then [0xC0 + n / 64, 0x80 + n % 64]
    else if n < 0x10000 then [0xE0 + n / 4096, 0x80 + (n / 64) % 64, 0x80 + n % 64]
    else
      assert n / 262144 < 8 by { assert n < 0x110000; }
      [0xF0 + n / 262144, 0x80 + (n / 4096) % 64, 0x80 + (n / 64) % 64, 0x80 + n % 64]
  }

  function Utf8String(s: string): seq<Byte> {
    if s == [] then [] else Utf8(s[0]) + Utf8String(s[1..])
  }

  /** How many bytes a UTF-8 sequence takes, read off its first byte. */
  function Utf8Width(lead: Byte): nat {
    if lead < 0x80 then 1 else if lead < 0xE0 then 2 else if lead < 0xF0 then 3 else 4
  }

  /** The scalar value one UTF-8 sequence of one to four bytes stands for. */
  function CodePoint(bytes: seq<Byte>): int
    requires 1 <= |bytes| <= 4
  {
    if |bytes| == 1 then bytes[0]
    else if |bytes| == 2 then (bytes[0] as int - 0xC0) * 64 + (bytes[1] as int - 0x80)
    else if |bytes| == 3 then (bytes[0] as int - 0xE0) * 4096 + (bytes[1] as int - 0x80) * 64 + (bytes[2] as int - 0x80)
    else (bytes[0] as int - 0xF0) * 262144 + (bytes[1] as int - 0x80) * 4096 + (bytes[2] as int - 0x80) * 64 + (bytes[3] as int - 0x80)
  }

  /** The first byte gives the length of a character's encoding, and its bytes give the character back. */
  lemma Utf8Decodes(c: char)
    ensures Utf8Width(Utf8(c)[0]) == |Utf8(c)|
    ensures CodePoint(Utf8(c)) == c as int
  {
    var n := c as int;
    if 0x800 <= n < 0x10000 {
      var q := n / 64;
      assert q / 64 == n / 4096;
    } else if 0x10000 <= n {
      var q := n / 64;
      var p := q / 64;
      assert q / 64 == n / 4096;
      assert p / 64 == n / 262144;
    }
  }

  /** Distinct strings have distinct UTF-8 encodings. */
  lemma {:induction false} Utf8StringInjective(s: string, t: string)
    requires Utf8String(s) == Utf8String(t)
    ensures s == t
  {
    if s != [] {
      assert t != [] by { assert |Utf8String(s)| >= |Utf8(s[0])| > 0; }
      var a, b := Utf8(s[0]), Utf8(t[0]);
      var bytes := Utf8String(s);
      assert bytes == a + Utf8String(s[1..]) && bytes == b + Utf8String(t[1..]);
      Utf8Decodes(s[0]);
      Utf8Decodes(t[0]);
      assert a[0] == bytes[0] == b[0];
      assert a == bytes[..|a|] == b;
      assert Utf8String(s[1..]) == bytes[|a|..] == Utf8String(t[1..]);
      Utf8StringInjective(s[1..], t[1..]);
      assert s[0] as int == t[0] as int;
    }
  }

  /** The bytes left as they are: ASCII letters and digits, `*`, `-`, `.` and `_`. */
  predicate Unreserved(b: int) {
    b == 0x2A || b == 0x2D || b == 0x2E || b == 0x5F
    || (0x30 <= b <= 0x39) || (0x41 <= b <= 0x5A) || (0x61 <= b <= 0x7A)
  }

  /** An upper-case hexadecimal digit. */
  function HexDigit(d: int): char
    requires 0 <= d < 16
  {
    if d < 10 then ('0' as int + d) as char else ('A' as int + d - 10) as char
  }

  predicate IsHex(c: char) {
    ('0' <= c <= '9') || ('A' <= c <= 'F') || ('a' <= c <= 'f')
  }

  function HexValue(c: char): (d: int)
    requires IsHex(c)
    ensures 0 <= d < 16
  {
    if '0' <= c <= '9' then c as int - '0' as int
    else if 'A' <= c <= 'F' then c as int - 'A' as int + 10
    else c as int - 'a' as int + 10
  }

  /** One byte of the form-urlencoded serialization: kept, `+` for a space, or `%XX`. */
  function EncodeByte(b: Byte): (s: string)
    ensures '&' !in s && '=' !in s
  {
    if Unreserved(b) then [b as char]
    else if b == 0x20 then "+"
    else ['%', HexDigit(b / 16), HexDigit(b % 16)]
  }

  function EncodeBytes(bytes: seq<Byte>): (s: string)
    ensures '&' !in s && '=' !in s
  {
    if bytes == [] then "" else EncodeByte(bytes[0]) + EncodeBytes(bytes[1..])
  }

  /** The form-urlencoded serialization of one name or value. */
  function Encode(s: string): (r: string)
    ensures '&' !in r && '=' !in r
  {
    EncodeBytes(Utf8String(s))
  }

  /** Each parameter as `name=value`. */
  function Pieces(params: seq<(string, string)>): (pieces: seq<string>)
    ensures |pieces| == |params|
    ensures forall i :: 0 <= i < |params| ==> pieces[i] == Encode(params[i].0) + "=" + Encode(params[i].1)
  {
    seq(|params|, i requires 0 <= i < |params| => Encode(params[i].0) + "=" + Encode(params[i].1))
  }

  /** The serialized query: the pieces joined with `&`. */
  function Serialize(params: seq<(string, string)>): string {
    Join(Pieces(params), '&')
  }

  /** The URL handed to `axios.get`: the endpoint's `/search` path with the serialized query. */
  function RequestURL(endpoint: string, query: string, opts: Option<Options>): string {
    endpoint + "/search?" + Serialize(SearchParams(query, opts))
  }

  // -------------------------------------------------------- decoding (partner)

  /** The byte the text starts with and how many characters spell it. */
  function Leading(s: string): (r: Option<(Byte, nat)>)
    requires s != []
    ensures r.Some? ==> 1 <= r.value.1 <= |s|
  {
    if s[0] == '+' then Some((0x20, 1))
    else if s[0] == '%' && |s| >= 3 && IsHex(s[1]) && IsHex(s[2]) then Some((HexValue(s[1]) * 16 + HexValue(s[2]), 3))
    else if Unreserved(s[0] as int) then Some((s[0] as int, 1))
    else None
  }

  /** Percent-decoding of a serialized name or value; `None` for text the serializer never produces. */
  function DecodeBytes(s: string): Option<seq<Byte>>
    decreases |s|
  {
    if s == [] then Some([])
    else match Leading(s)
      case None => None
      case Some((b, width)) =>
        match DecodeBytes(s[width..])
        case None => None
        case Some(bs) => Some([b] + bs)
  }

  lemma DecodeStep(b: Byte, t: string)
    ensures DecodeBytes(EncodeByte(b) + t) == match DecodeBytes(t) case None => None case Some(bs) => Some([b] + bs)
  {
    var s := EncodeByte(b) + t;
    if Unreserved(b) {
      assert s[0] == b as char && s[1..] == t;
    } else if b == 0x20 {
      assert s[0] == '+' && s[1..] == t;
    } else {
      assert s[0] == '%' && s[1] == HexDigit(b / 16) && s[2] == HexDigit(b % 16) && s[3..] == t;
      assert HexValue(HexDigit(b / 16)) == b / 16;
      assert HexValue(HexDigit(b % 16)) == b % 16;
    }
  }

  /** Decoding undoes the byte-level serialization. */
  lemma {:induction false} DecodeEncodeBytes(bytes: seq<Byte>)
    ensures DecodeBytes(EncodeBytes(bytes)) == Some(bytes)
  {
    if bytes != [] {
      DecodeStep(bytes[0], EncodeBytes(bytes[1..]));
      DecodeEncodeBytes(bytes[1..]);
      assert [bytes[0]] + bytes[1..] == bytes;
    }
  }

  /** One `name=value` piece of a serialized query. */
  function ParsePair(piece: string): Option<(seq<Byte>, seq<Byte>)> {
    var halves := Split(piece, '=');
    if |halves| != 2 then None
    else match (DecodeBytes(halves[0]), DecodeBytes(halves[1]))
      case (Some(name), Some(value)) => Some((name, value))
      case _ => None
  }

  function ParsePairs(pieces: seq<string>): Option<seq<(seq<Byte>, seq<Byte>)>> {
    if pieces == [] then Some([])
    else match (ParsePair(pieces[0]), ParsePairs(pieces[1..]))
      case (Some(p), Some(ps)) => Some([p] + ps)
      case _ => None
  }

  /** Parsing a query string back into name/value byte strings. */
  function ParseQuery(s: string): Option<seq<(seq<Byte>, seq<Byte>)>> {
    ParsePairs(Split(s, '&'))
  }

  /** The UTF-8 bytes of each name and value in order: what the serialized query carries. */
  function Utf8Pairs(params: seq<(string, string)>): seq<(seq<Byte>, seq<Byte>)> {
    seq(|params|, i requires 0 <= i < |params| => (Utf8String(params[i].0), Utf8String(params[i].1)))
  }

  lemma PairRoundTrip(name: string, value: string)
    ensures ParsePair(Encode(name) + "=" + Encode(value)) == Some((Utf8String(name), Utf8String(value)))
  {
    assert Join([Encode(name), Encode(value)], '=') == Encode(name) + "=" + Encode(value);
    SplitJoin([Encode(name), Encode(value)], '=');
    DecodeEncodeBytes(Utf8String(name));
    DecodeEncodeBytes(Utf8String(value));
  }

  lemma {:induction false} PairsRoundTrip(params: seq<(string, string)>)
    ensures ParsePairs(Pieces(params)) == Some(Utf8Pairs(params))
  {
    if params == [] {
      assert Pieces(params) == [] && Utf8Pairs(params) == [];
    } else {
      PairsRoundTrip(params[1..]);
      PairsStep(params);
    }
  }

  lemma PairsStep(params: seq<(string, string)>)
    requires params != [] && ParsePairs(Pieces(params[1..])) == Some(Utf8Pairs(params[1..]))
    ensures ParsePairs(Pieces(params)) == Some(Utf8Pairs(params))
  {
    var pieces, pair := Pieces(params), (Utf8String(params[0].0), Utf8String(params[0].1));
    PairRoundTrip(params[0].0, params[0].1);
    assert pieces[1..] == Pieces(params[1..]);
    ParsePairsCons(pieces, pair, Utf8Pairs(params[1..]));
    assert Utf8Pairs(params) == [pair] + Utf8Pairs(params[1..]);
  }

  lemma ParsePairsCons(pieces: seq<string>, pair: (seq<Byte>, seq<Byte>), rest: seq<(seq<Byte>, seq<Byte>)>)
    requires pieces != [] && ParsePair(pieces[0]) == Some(pair) && ParsePairs(pieces[1..]) == Some(rest)
    ensures ParsePairs(pieces) == Some([pair] + rest)
  {
  }

  /**
   * The serialization is unambiguous: every name and value can be recovered,
   * in order, whatever characters they hold.
   */
  lemma SerializeRoundTrip(params: seq<(string, string)>)
    requires |params| > 0
    ensures ParseQuery(Serialize(params)) == Some(Utf8Pairs(params))
  {
    SplitJoin(Pieces(params), '&');
    PairsRoundTrip(params);
  }

  /** Two parameter lists that serialize alike are the same list, character for character. */
  lemma SerializeInjective(params: seq<(string, string)>, other: seq<(string, string)>)
    requires |params| > 0 && |other| > 0
    requires Serialize(params) == Serialize(other)
    ensures params == other
  {
    SerializeRoundTrip(params);
    SerializeRoundTrip(other);
    var bytes := Utf8Pairs(params);
    assert |params| == |bytes| == |other|;
    forall i | 0 <= i < |params|
      ensures params[i] == other[i]
    {
      assert bytes[i] == Utf8Pairs(other)[i];
      Utf8StringInjective(params[i].0, other[i].0);
      Utf8StringInjective(params[i].1, other[i].1);
    }
  }

  /** The request carries `format=json` first, then the query, then the options in entry order. */
  lemma RequestCarriesParams(endpoint: string, query: string, opts: Option<Options>)
    ensures var url := RequestURL(endpoint, query, opts);
      var prefix := endpoint + "/search?";
      && url[..|prefix|] == prefix
      && ParseQuery(url[|prefix|..]) == Some(Utf8Pairs(SearchParams(query, opts)))
      && Utf8Pairs(SearchParams(query, opts))[0] == (Utf8String("format"), Utf8String("json"))
      && Utf8Pairs(SearchParams(query, opts))[1] == (Utf8String("q"), Utf8String(query))
  {
    var prefix := endpoint + "/search?";
    var url := RequestURL(endpoint, query, opts);
    assert url[|prefix|..] == Serialize(SearchParams(query, opts));
    SerializeRoundTrip(SearchParams(query, opts));
  }

  // ------------------------------------------------------------------ replies

  datatype SearchResult = SearchResult(
    title: string,
    url: string,
    imgSrc: Option<string>,
    thumbnailSrc: Option<string>,
    thumbnail: Option<string>,
    content: Option<string>,
    author: Option<string>,
    iframeSrc: Option<string>)

  /** `res.data`, with either list possibly missing. */
  datatype ResponseData = ResponseData(results: Option<seq<SearchResult>>, suggestions: Option<seq<string>>)

  /** How the `axios.get` call ended. `data` is absent when the body is not an object. */
  datatype HttpOutcome = Failed | Responded(status: int, data: Option<ResponseData>)

  datatype SearchOutput = SearchOutput(results: seq<SearchResult>, suggestions: seq<string>)

  /** What `searchSearxng` resolves with: never an error, the empty pair on any failure. */
  function Interpret(outcome: HttpOutcome): SearchOutput {
    match outcome
    case Failed => SearchOutput([], [])
    case Responded(status, data) =>
      if status != 200 || data.None? then SearchOutput([], [])
      else SearchOutput(data.value.results.GetOr([]), data.value.suggestions.GetOr([]))
  }

  /** A failed request, a non-200 status or a body without data yields the empty pair. */
  lemma FailureIsEmpty(outcome: HttpOutcome)
    requires outcome.Failed? || outcome.status != 200 || outcome.data.None?
    ensures Interpret(outcome) == SearchOutput([], [])
  {
  }

  /** A 200 reply passes each list through, and a missing list becomes `[]`. */
  lemma SuccessDefaults(data: ResponseData)
    ensures Interpret(Responded(200, Some(data))).results == (if data.results.Some? then data.results.value else [])
    ensures Interpret(Responded(200, Some(data))).suggestions == (if data.suggestions.Some? then data.suggestions.value else [])
  {
  }

  /** `searchSearxng(query, opts)`: the URL requested, and the pair it resolves with. */
  method SearchSearxng(endpoint: string, query: string, opts: Option<Options>, outcome: HttpOutcome)
    returns (url: string, output: SearchOutput)
    ensures url == RequestURL(endpoint, query, opts)
    ensures output == Interpret(outcome)
  {
    var params := BuildParams(query, opts);
    url := endpoint + "/search?" + Serialize(params);
    if outcome.Failed? || outcome.status != 200 || outcome.data.None? {
      return url, SearchOutput([], []);
    }
    var results := outcome.data.value.results.GetOr([]);
    var suggestions := outcome.data.value.suggestions.GetOr([]);
    output := SearchOutput(results, suggestions);
  }
}
