/**
 * The URLs of App.tsx: the base URL the board-level page derives from its own
 * address, the modal URL it hands to the host, and the query-string reading
 * (`URLSearchParams` over `location.search`) the modal page applies to it.
 * `encodeURIComponent` and the percent-decoding of `URLSearchParams` are
 * parameters of the functions that use them.
 */
module Url {
  import opened Optional

  /** The first position at or after `i` holding `c`, or `|s|` when there is none. */
  function FindChar(s: string, c: char, i: nat): (j: nat)
    requires i <= |s|
    ensures i <= j <= |s|
    ensures forall k :: i <= k < j ==> s[k] != c
    ensures j == |s| || s[j] == c
    decreases |s| - i
  {
    if i == |s| || s[i] == c then i else FindChar(s, c, i + 1)
  }

  /** The position `FindChar` returns is the only one with its properties. */
  lemma {:induction false} FindCharUnique(s: string, c: char, i: nat, j: nat)
    requires i <= j <= |s|
    requires forall k :: i <= k < j ==> s[k] != c
    requires j == |s| || s[j] == c
    ensures FindChar(s, c, i) == j
    decreases |s| - i
  {
    if i < j {
      FindCharUnique(s, c, i + 1, j);
    }
  }

  /** `s.split(c)[0]`: the part of `s` before the first `c`, or all of `s`. */
  function BeforeFirst(s: string, c: char): string {
    s[..FindChar(s, c, 0)]
  }

  /** The start of the run of non-`/` characters that ends at position `j`. */
  function SegmentStart(s: string, j: nat): (i: nat)
    requires j <= |s|
    ensures i <= j
    ensures forall k :: i <= k < j ==> s[k] != '/'
    ensures i == 0 || s[i - 1] == '/'
  {
    if j > 0 && s[j - 1] != '/' then SegmentStart(s, j - 1) else j
  }

  /** `s.replace(/[^\/]*$/, '')`: drops the trailing run of non-`/` characters. */
  function DropLastSegment(s: string): string {
    s[..SegmentStart(s, |s|)]
  }

  /** `href.split('?')[0].split('#')[0]`: the address without query and fragment. */
  function Location(href: string): string {
    BeforeFirst(BeforeFirst(href, '?'), '#')
  }

  /** The directory the page was served from (App.tsx line 11). */
  function BaseUrl(href: string): string {
    DropLastSegment(Location(href))
  }

  /** The location is the longest prefix of `href` that holds neither `?` nor `#`:
      it stops at the first of the two, whichever comes first. */
  lemma LocationCut(href: string)
    ensures |Location(href)| <= |href| && Location(href) == href[..|Location(href)|]
    ensures '?' !in Location(href) && '#' !in Location(href)
    ensures Location(href) == href || href[|Location(href)|] == '?' || href[|Location(href)|] == '#'
  {
    var p := BeforeFirst(href, '?');
    var q := BeforeFirst(p, '#');
    assert forall k :: 0 <= k < |q| ==> q[k] == p[k] == href[k];
    if q != href {
      if q == p {
        assert href[|p|] == '?';
      } else {
        assert href[|q|] == p[|q|] == '#';
      }
    }
  }

  /** The base URL is a prefix of `href` with neither `?` nor `#`, it is empty or
      ends with `/`, and no `/` follows it in the location: it keeps every
      directory of the path and drops only the file name. */
  lemma BaseUrlShape(href: string)
    ensures |BaseUrl(href)| <= |Location(href)| && BaseUrl(href) == Location(href)[..|BaseUrl(href)|]
    ensures |BaseUrl(href)| <= |href| && BaseUrl(href) == href[..|BaseUrl(href)|]
    ensures '?' !in BaseUrl(href) && '#' !in BaseUrl(href)
    ensures BaseUrl(href) == [] || BaseUrl(href)[|BaseUrl(href)| - 1] == '/'
    ensures '/' !in Location(href)[|BaseUrl(href)|..]
  {
    var p, b := Location(href), BaseUrl(href);
    LocationCut(href);
    assert forall k :: 0 <= k < |b| ==> b[k] == p[k];
    var tail := p[|b|..];
    assert forall k :: 0 <= k < |tail| ==> tail[k] == p[|b| + k];
  }

  /** Deriving the base URL again from a base URL changes nothing. */
  lemma BaseUrlIdempotent(href: string)
    ensures BaseUrl(BaseUrl(href)) == BaseUrl(href)
  {
    var b := BaseUrl(href);
    BaseUrlShape(href);
    FindCharUnique(b, '?', 0, |b|);
    FindCharUnique(BeforeFirst(b, '?'), '#', 0, |b|);
    assert Location(b) == b;
    assert SegmentStart(b, |b|) == |b|;
  }

  /** The URL the list action opens in the modal (App.tsx line 23). The list id
      is inserted as it is; only the list name is encoded. */
  function ModalUrl(base: string, listId: string, listName: string, encode: string -> string): string {
    base + "index.html?listId=" + listId + "&listName=" + encode(listName)
  }

  /** `location.search` without its leading `?`: the text between the first `?`
      and the fragment, empty when there is no query. */
  function QueryOf(href: string): string {
    var h := BeforeFirst(href, '#');
    var q := FindChar(h, '?', 0);
    if q == |h| then "" else h[q + 1..]
  }

  /** `s.split(c)`. */
  function Split(s: string, c: char): (parts: seq<string>)
    ensures |parts| >= 1
    decreases |s|
  {
    var j := FindChar(s, c, 0);
    if j == |s| then [s] else [s[..j]] + Split(s[j + 1..], c)
  }

  /** `parts.join(c)`. */
  function Join(parts: seq<string>, c: char): string
    requires |parts| >= 1
  {
    if |parts| == 1 then parts[0] else parts[0] + [c] + Join(parts[1..], c)
  }

  /** Splitting loses nothing: joining the pieces again gives the string back,
      and no piece holds the separator. */
  lemma {:induction false} SplitJoin(s: string, c: char)
    ensures Join(Split(s, c), c) == s
    ensures forall k :: 0 <= k < |Split(s, c)| ==> c !in Split(s, c)[k]
    decreases |s|
  {
    var j := FindChar(s, c, 0);
    if j < |s| {
      SplitJoin(s[j + 1..], c);
      assert s == s[..j] + [c] + s[j + 1..];
    }
  }

  /** One `name=value` pair of a query string. */
  datatype Param = Param(name: string, value: string)

  /** A non-empty piece of a query string read as a pair: split at the first `=`,
      both halves decoded; a piece without `=` has an empty value. */
  function ParsePair(piece: string, decode: string -> string): Param {
    var j := FindChar(piece, '=', 0);
    if j == |piece| then Param(decode(piece), "")
    else Param(decode(piece[..j]), decode(piece[j + 1..]))
  }

  /** The pairs of the pieces, skipping empty pieces. */
  function ParsePieces(pieces: seq<string>, decode: string -> string): seq<Param> {
    if pieces == [] then []
    else if pieces[0] == [] then ParsePieces(pieces[1..], decode)
    else [ParsePair(pieces[0], decode)] + ParsePieces(pieces[1..], decode)
  }

  /** `new URLSearchParams(search)`: the pairs of a query string, in order. */
  function ParseQuery(query: string, decode: string -> string): seq<Param> {
    ParsePieces(Split(query, '&'), decode)
  }

  /** `URLSearchParams.get(name)`: the value of the first pair with that name. */
  function Get(params: seq<Param>, name: string): Option<string> {
    if params == [] then None
    else if params[0].name == name then Some(params[0].value)
    else Get(params[1..], name)
  }

  /** The query of an address `path?query` without `#` is `query`, when the path holds no `?`. */
  lemma QueryOfPlain(path: string, query: string)
    requires '?' !in path && '#' !in path && '#' !in query
    ensures QueryOf(path + "?" + query) == query
  {
    var url := path + "?" + query;
    assert '#' !in url;
    FindCharUnique(url, '#', 0, |url|);
    assert url[|path|] == '?';
    assert forall k :: 0 <= k < |path| ==> url[k] == path[k];
    FindCharUnique(url, '?', 0, |path|);
    assert url[|path| + 1..] == query;
  }

  /** The query of a modal URL is its two parameters joined by `&`. */
  lemma QueryOfModalUrl(base: string, listId: string, listName: string, encode: string -> string)
    requires '?' !in base && '#' !in base
    requires '#' !in listId && '#' !in encode(listName)
    ensures QueryOf(ModalUrl(base, listId, listName, encode))
      == "listId=" + listId + "&" + "listName=" + encode(listName)
  {
    var path, query := base + "index.html", "listId=" + listId + "&" + "listName=" + encode(listName);
    assert ModalUrl(base, listId, listName, encode) == path + "?" + query;
    QueryOfPlain(path, query);
  }

  /** Two pieces without `&`, joined by `&`, split back into those two pieces. */
  lemma SplitTwo(first: string, second: string)
    requires '&' !in first && '&' !in second
    ensures Split(first + "&" + second, '&') == [first, second]
  {
    var query := first + "&" + second;
    FindCharUnique(query, '&', 0, |first|);
    assert query[..|first|] == first;
    assert query[|first| + 1..] == second;
    FindCharUnique(second, '&', 0, |second|);
  }

  /** A piece `name=value` whose name holds no `=` is read as that pair, decoded. */
  lemma PairOf(name: string, value: string, decode: string -> string)
    requires '=' !in name
    ensures ParsePair(name + "=" + value, decode) == Param(decode(name), decode(value))
  {
    var piece := name + "=" + value;
    FindCharUnique(piece, '=', 0, |name|);
    assert piece[..|name|] == name;
    assert piece[|name| + 1..] == value;
  }

  /** A query of two pairs `n1=v1&n2=v2`, none of whose parts holds `&` and whose
      names hold no `=`, reads as those two pairs, decoded. */
  lemma ParseTwoPairs(n1: string, v1: string, n2: string, v2: string, decode: string -> string)
    requires '=' !in n1 && '=' !in n2
    requires '&' !in n1 && '&' !in v1 && '&' !in n2 && '&' !in v2
    ensures ParseQuery(n1 + "=" + v1 + "&" + n2 + "=" + v2, decode)
      == [Param(decode(n1), decode(v1)), Param(decode(n2), decode(v2))]
  {
    var first, second := n1 + "=" + v1, n2 + "=" + v2;
    assert n1 + "=" + v1 + "&" + n2 + "=" + v2 == first + "&" + second;
    SplitTwo(first, second);
    PairOf(n1, v1, decode);
    PairOf(n2, v2, decode);
    assert first != [] && second != [];
    assert [first, second][1..] == [second] && [second][1..] == [];
    assert ParsePieces([second], decode) == [Param(decode(n2), decode(v2))];
  }

  /** Reading the query of a modal URL gives back the list id and the list name,
      provided the id holds no `&` or `#` (it is not encoded), the encoded name
      holds neither, and decoding undoes the encoding and leaves the id and the
      two parameter names alone. */
  lemma ModalUrlRoundTrip(base: string, listId: string, listName: string,
                          encode: string -> string, decode: string -> string)
    requires '?' !in base && '#' !in base
    requires '&' !in listId && '#' !in listId
    requires '&' !in encode(listName) && '#' !in encode(listName)
    requires decode("listId") == "listId" && decode("listName") == "listName"
    requires decode(listId) == listId && decode(encode(listName)) == listName
    ensures Get(ParseQuery(QueryOf(ModalUrl(base, listId, listName, encode)), decode), "listId") == Some(listId)
    ensures Get(ParseQuery(QueryOf(ModalUrl(base, listId, listName, encode)), decode), "listName") == Some(listName)
  {
    QueryOfModalUrl(base, listId, listName, encode);
    assert "listId=" + listId + "&" + "listName=" + encode(listName)
      == "listId" + "=" + listId + "&" + "listName" + "=" + encode(listName);
    ParseTwoPairs("listId", listId, "listName", encode(listName), decode);
  }
}
