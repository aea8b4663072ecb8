/** The reader behind `useSearchParams().get(name)`: the query of a link is
    parsed as `application/x-www-form-urlencoded` (section 5.1 of the WHATWG
    URL Standard) and the first pair with that name gives the value. */
module Query {
  import opened Wrappers
  import opened Strings
  import opened Lists

  /** One decoded `name=value` pair. */
  datatype Param = Param(name: string, value: string)

  /** `location.search` without its '?': the text after the first '?' of
      the part before the first '#', or "" when that part has no '?'. */
  function SearchOf(url: string): (q: string)
    ensures '#' !in q
    ensures '?' !in TakeUntil(url, '#') ==> q == ""
    ensures '#' !in url && '?' in url ==> |TakeUntil(url, '?')| < |url| && q == url[|TakeUntil(url, '?')| + 1..]
  {
    var beforeFragment := TakeUntil(url, '#');
    assert '#' !in url ==> beforeFragment == url by {
      if '#' !in url { TakeUntilAbsent(url, '#'); }
    }
    var n := |TakeUntil(beforeFragment, '?')|;
    if n < |beforeFragment| then
      var q := beforeFragment[n + 1..];
      assert forall k :: 0 <= k < |q| ==> q[k] == beforeFragment[n + 1 + k];
      q
    else ""
  }

  predicate IsHex(c: char) {
    '0' <= c <= '9' || 'a' <= c <= 'f' || 'A' <= c <= 'F'
  }

  function HexValue(c: char): (v: nat)
    requires IsHex(c)
    ensures v < 16
  {
    if '0' <= c <= '9' then (c - '0') as nat
    else if 'a' <= c <= 'f' then (c - 'a') as nat + 10
    else (c - 'A') as nat + 10
  }

  /** The form decoding of a name or a value: '+' becomes a space and "%XX"
      with two hex digits becomes the character with that code; any other
      '%' stays as it is. */
  function FormDecode(s: string): (r: string)
    ensures |r| <= |s|
    ensures '+' !in s && '%' !in s ==> r == s
    decreases |s|
  {
    if s == [] then ""
    else if s[0] == '+' then " " + FormDecode(s[1..])
    else if s[0] == '%' && |s| >= 3 && IsHex(s[1]) && IsHex(s[2]) then
      [(HexValue(s[1]) * 16 + HexValue(s[2])) as char] + FormDecode(s[3..])
    else [s[0]] + FormDecode(s[1..])
  }

  /** One '&'-piece: the name is the text before its first '=', the value
      the text after it, or "" when the piece has no '='. */
  function ParsePiece(piece: string): (p: Param)
    ensures '=' !in piece ==> p == Param(FormDecode(piece), "")
  {
    var name := TakeUntil(piece, '=');
    if |name| < |piece| then Param(FormDecode(name), FormDecode(piece[|name| + 1..]))
    else
      assert name == piece;
      Param(FormDecode(piece), "")
  }

  predicate NonEmpty(piece: string) { piece != "" }

  /** The pairs of a query, in order; empty pieces are skipped. */
  function Params(query: string): (ps: seq<Param>)
    ensures |ps| <= |Split(query, "&")|
  {
    var pieces := Filter(Split(query, "&"), NonEmpty);
    seq(|pieces|, k requires 0 <= k < |pieces| => ParsePiece(pieces[k]))
  }

  /** The predicate the lookup is made with: the pair is called `name`. */
  function Called(name: string): Param -> bool {
    (p: Param) => p.name == name
  }

  /** `searchParams.get(name)`: the value of the first pair called `name`,
      `None` standing for `null`. */
  function Get(query: string, name: string): (r: Option<string>)
    ensures r.None? <==> forall k :: 0 <= k < |Params(query)| ==> Params(query)[k].name != name
    ensures r.Some? ==> exists k :: 0 <= k < |Params(query)| && Params(query)[k] == Param(name, r.value)
                                    && forall j :: 0 <= j < k ==> Params(query)[j].name != name
  {
    match Find(Params(query), Called(name))
    case None => None
    case Some(p) => Some(p.value)
  }

  /** A link without a fragment whose path has no '?' has the rest after
      its '?' as its query. */
  lemma SearchAfterPath(url: string, path: string, query: string)
    requires url == path + ['?'] + query
    requires '?' !in path && '#' !in url
    ensures SearchOf(url) == query
  {
    TakeUntilAbsent(url, '#');
    TakeUntilStop(path, query, '?');
  }

  /** A query holding no '&' is one pair. */
  lemma SinglePiece(query: string)
    requires query != "" && '&' !in query
    ensures Params(query) == [ParsePiece(query)]
  {
    SplitAbsent(query, '&');
    assert NonEmpty(query);
    FilterKeepsAll([query], NonEmpty);
  }

  /** A link `path?name=value` whose parts need no decoding reads back
      `value` under `name`. */
  lemma GetSingleParam(url: string, path: string, name: string, value: string)
    requires url == path + "?" + name + "=" + value
    requires '?' !in path && '#' !in path
    requires name != "" && '&' !in name && '=' !in name && '#' !in name && '+' !in name && '%' !in name
    requires '&' !in value && '#' !in value && '+' !in value && '%' !in value
    ensures Get(SearchOf(url), name) == Some(value)
  {
    var query := name + ['='] + value;
    assert url == path + ['?'] + query;
    SearchAfterPath(url, path, query);
    SinglePiece(query);
    TakeUntilStop(name, value, '=');
    assert query[|name| + 1..] == value;
    assert ParsePiece(query) == Param(name, value);
    FindFirst(Params(query), Called(name), 0);
  }
}
