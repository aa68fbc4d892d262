/**
 * The link both search views put in their context so that a column heading
 * can add `order`/`sort` while keeping the search: every search parameter
 * that is given becomes a `name=value` piece, in a fixed order, and the
 * pieces are joined with '&' after `path + "?"`. The values are inserted as
 * they are, without percent-encoding.
 *
 * To say what the link means, the module also models how a query string is
 * read back (`parse_qsl` with blank values kept, `unquote_plus` on names and
 * values), and proves when the round trip gives the parameters back.
 */
module SearchLinks {
  import opened Strings
  import opened ChantSearch

  /** The parameters `ChantSearchView` copies into its link, in order. */
  const GlobalLinkNames: seq<string> :=
    ["op", "keyword", "service", "genre", "cantus_id", "mode", "feast", "position", "melodies", "search_bar"]

  /** The parameters `ChantSearchMSView` copies into its link, in order. */
  const SourceLinkNames: seq<string> :=
    ["op", "keyword", "service", "genre", "cantus_id", "mode", "feast", "position", "melodies",
     "indexing_notes_op", "indexing_notes"]

  // ---------------------------------------------------------------------------
  // Building the link

  /** `f"{name}={value}"` when the parameter is given, nothing otherwise. */
  function Piece(get: Params, name: string): seq<string> {
    if Given(get, name) then [name + "=" + get[name]] else []
  }

  /** The pieces of the given parameters among `names`, in the order of `names`. */
  function Pieces(get: Params, names: seq<string>): seq<string> {
    if names == [] then [] else Pieces(get, names[..|names| - 1]) + Piece(get, names[|names| - 1])
  }

  lemma PiecesSnoc(get: Params, names: seq<string>, name: string)
    ensures Pieces(get, names + [name]) == Pieces(get, names) + Piece(get, name)
  {
    assert (names + [name])[..|names|] == names;
  }

  /** One `if value: search_parameters.append(f"{name}={value}")` step. */
  method AppendGiven(parameters: seq<string>, get: Params, name: string, ghost names: seq<string>)
    returns (r: seq<string>)
    requires parameters == Pieces(get, names)
    ensures r == Pieces(get, names + [name])
  {
    PiecesSnoc(get, names, name);
    r := parameters;
    if Given(get, name) {
      r := r + [name + "=" + get[name]];
    }
  }

  /** `url_with_search_params` of `ChantSearchView`. */
  method GlobalSearchLink(path: string, get: Params) returns (url: string)
    ensures url == path + "?" + Join(Pieces(get, GlobalLinkNames), '&')
  {
    var parameters: seq<string> := [];
    ghost var done: seq<string> := [];
    parameters := AppendGiven(parameters, get, "op", done);
    done := done + ["op"];
    parameters := AppendGiven(parameters, get, "keyword", done);
    done := done + ["keyword"];
    parameters := AppendGiven(parameters, get, "service", done);
    done := done + ["service"];
    parameters := AppendGiven(parameters, get, "genre", done);
    done := done + ["genre"];
    parameters := AppendGiven(parameters, get, "cantus_id", done);
    done := done + ["cantus_id"];
    parameters := AppendGiven(parameters, get, "mode", done);
    done := done + ["mode"];
    parameters := AppendGiven(parameters, get, "feast", done);
    done := done + ["feast"];
    parameters := AppendGiven(parameters, get, "position", done);
    done := done + ["position"];
    parameters := AppendGiven(parameters, get, "melodies", done);
    done := done + ["melodies"];
    parameters := AppendGiven(parameters, get, "search_bar", done);
    done := done + ["search_bar"];
    assert done == GlobalLinkNames;
    url := path + "?";
    if parameters != [] {
      url := url + Join(parameters, '&');
    }
  }

  /** `url_with_search_params` of `ChantSearchMSView`. */
  method SourceSearchLink(path: string, get: Params) returns (url: string)
    ensures url == path + "?" + Join(Pieces(get, SourceLinkNames), '&')
  {
    var parameters: seq<string> := [];
    ghost var done: seq<string> := [];
    parameters := AppendGiven(parameters, get, "op", done);
    done := done + ["op"];
    parameters := AppendGiven(parameters, get, "keyword", done);
    done := done + ["keyword"];
    parameters := AppendGiven(parameters, get, "service", done);
    done := done + ["service"];
    parameters := AppendGiven(parameters, get, "genre", done);
    done := done + ["genre"];
    parameters := AppendGiven(parameters, get, "cantus_id", done);
    done := done + ["cantus_id"];
    parameters := AppendGiven(parameters, get, "mode", done);
    done := done + ["mode"];
    parameters := AppendGiven(parameters, get, "feast", done);
    done := done + ["feast"];
    parameters := AppendGiven(parameters, get, "position", done);
    done := done + ["position"];
    parameters := AppendGiven(parameters, get, "melodies", done);
    done := done + ["melodies"];
    parameters := AppendGiven(parameters, get, "indexing_notes_op", done);
    done := done + ["indexing_notes_op"];
    parameters := AppendGiven(parameters, get, "indexing_notes", done);
    done := done + ["indexing_notes"];
    assert done == SourceLinkNames;
    if parameters != [] {
      url := path + "?" + Join(parameters, '&');
    } else {
      url := path + "?";
    }
  }

  // ---------------------------------------------------------------------------
  // Reading a query string back

  /** A decoded query-string parameter. */
  datatype Pair = Pair(name: string, value: string)

  /** The given parameters among `names` as the link should carry them. */
  function GivenPairs(get: Params, names: seq<string>): seq<Pair> {
    if names == [] then []
    else
      var n := names[|names| - 1];
      GivenPairs(get, names[..|names| - 1]) + (if Given(get, n) then [Pair(n, get[n])] else [])
  }

  predicate IsHex(c: char) {
    '0' <= c <= '9' || 'a' <= c <= 'f' || 'A' <= c <= 'F'
  }

  function HexValue(c: char): (v: nat)
    requires IsHex(c)
    ensures v < 16
  {
    if '0' <= c <= '9' then c as nat - '0' as nat
    else if 'a' <= c <= 'f' then c as nat - 'a' as nat + 10
    else c as nat - 'A' as nat + 10
  }

  /** `unquote_plus`: "%XY" is the character with that hex code, '+' is a space. */
  function Unquote(s: string): string {
    if s == [] then []
    else if s[0] == '%' && |s| >= 3 && IsHex(s[1]) && IsHex(s[2]) then
      [(16 * HexValue(s[1]) + HexValue(s[2])) as char] + Unquote(s[3..])
    else if s[0] == '+' then [' '] + Unquote(s[1..])
    else [s[0]] + Unquote(s[1..])
  }

  /** The text before the first `c` (all of it when there is none). */
  function UpTo(s: string, c: char): string {
    if s == [] || s[0] == c then [] else [s[0]] + UpTo(s[1..], c)
  }

  /** The text after the first `c` (nothing when there is none). */
  function AfterFirst(s: string, c: char): string {
    if s == [] then [] else if s[0] == c then s[1..] else AfterFirst(s[1..], c)
  }

  lemma {:induction false} SeparatedAt(w: string, rest: string, c: char)
    requires c !in w
    ensures UpTo(w + [c] + rest, c) == w
    ensures AfterFirst(w + [c] + rest, c) == rest
  {
    if w == [] {
      assert w + [c] + rest == [c] + rest;
    } else {
      assert (w + [c] + rest)[1..] == w[1..] + [c] + rest;
      SeparatedAt(w[1..], rest, c);
    }
  }

  /** A piece is split at its first '='; a piece without one has an empty value. */
  function ParsePiece(piece: string): Pair {
    Pair(Unquote(UpTo(piece, '=')), Unquote(AfterFirst(piece, '=')))
  }

  /** Empty pieces are skipped. */
  function ParsePieces(pieces: seq<string>): seq<Pair> {
    if pieces == [] then []
    else (if pieces[0] == "" then [] else [ParsePiece(pieces[0])]) + ParsePieces(pieces[1..])
  }

  function ParseQuery(query: string): seq<Pair> {
    ParsePieces(Split(query, '&'))
  }

  /** The query string of a URL: what follows its first '?'. */
  function QueryOf(url: string): string {
    AfterFirst(url, '?')
  }

  lemma {:induction false} ParsePiecesConcat(a: seq<string>, b: seq<string>)
    ensures ParsePieces(a + b) == ParsePieces(a) + ParsePieces(b)
  {
    if a != [] {
      var head := if a[0] == "" then [] else [ParsePiece(a[0])];
      assert (a + b)[0] == a[0];
      assert (a + b)[1..] == a[1..] + b;
      ParsePiecesConcat(a[1..], b);
      calc {
        ParsePieces(a + b);
        head + ParsePieces(a[1..] + b);
        head + (ParsePieces(a[1..]) + ParsePieces(b));
        (head + ParsePieces(a[1..])) + ParsePieces(b);
      }
    } else {
      assert a + b == b;
    }
  }

  /** Text that reads back as itself and does not end a piece. */
  predicate Plain(s: string) {
    '&' !in s && '%' !in s && '+' !in s
  }

  lemma {:induction false} UnquotePlain(s: string)
    requires '%' !in s && '+' !in s
    ensures Unquote(s) == s
  {
    if s != [] {
      assert s[0] != '%' && s[0] != '+';
      assert s[1..] == s[1..] && forall i :: 1 <= i < |s| ==> s[i] == s[1..][i - 1];
      UnquotePlain(s[1..]);
    }
  }

  /** Parameter names are made of lower-case letters and '_'. */
  predicate NameChar(c: char) {
    'a' <= c <= 'z' || c == '_'
  }

  predicate NameChars(n: string) {
    n == [] || (NameChar(n[0]) && NameChars(n[1..]))
  }

  /** The names a link may carry: non-empty runs of name characters. */
  predicate LinkNames(names: seq<string>) {
    names == [] || (names[0] != "" && NameChars(names[0]) && LinkNames(names[1..]))
  }

  /** A name of name characters reads back as itself and holds no separator. */
  lemma {:induction false} NameCharsPlain(n: string)
    requires NameChars(n)
    ensures Plain(n) && '=' !in n
  {
    if n != [] {
      NameCharsPlain(n[1..]);
      assert n == [n[0]] + n[1..];
    }
  }

  lemma {:induction false} LinkNamesMember(names: seq<string>, n: string)
    requires LinkNames(names) && n in names
    ensures n != "" && Plain(n) && '=' !in n
  {
    if names[0] == n {
      NameCharsPlain(n);
    } else {
      LinkNamesMember(names[1..], n);
    }
  }

  lemma {:induction false} LinkNamesInit(names: seq<string>)
    requires LinkNames(names) && names != []
    ensures LinkNames(names[..|names| - 1])
  {
    if |names| > 1 {
      LinkNamesInit(names[1..]);
      assert names[1..][..|names| - 2] == names[..|names| - 1][1..];
    }
  }

  lemma {:induction false} ParsePiecesOfPieces(get: Params, names: seq<string>)
    requires LinkNames(names)
    requires forall i :: 0 <= i < |names| && Given(get, names[i]) ==> Plain(get[names[i]])
    ensures ParsePieces(Pieces(get, names)) == GivenPairs(get, names)
    ensures forall p :: p in Pieces(get, names) ==> '&' !in p
  {
    if names != [] {
      var init, n := names[..|names| - 1], names[|names| - 1];
      LinkNamesInit(names);
      LinkNamesMember(names, n);
      ParsePiecesOfPieces(get, init);
      ParsePiecesConcat(Pieces(get, init), Piece(get, n));
      if Given(get, n) {
        var v := get[n];
        SeparatedAt(n, v, '=');
        assert n + "=" + v == n + ['='] + v;
        UnquotePlain(n);
        UnquotePlain(v);
        assert ParsePieces([n + "=" + v]) == [ParsePiece(n + "=" + v)];
      }
    }
  }

  lemma AfterPath(path: string, query: string)
    requires '?' !in path
    ensures QueryOf(path + "?" + query) == query
  {
    SeparatedAt(path, query, '?');
    assert path + "?" + query == path + ['?'] + query;
  }

  /**
   * When no value holds '&', '%' or '+', reading the link's query string back
   * gives exactly the given parameters, in the order of `names`.
   */
  lemma LinkRoundTrip(path: string, get: Params, names: seq<string>)
    requires '?' !in path
    requires LinkNames(names)
    requires forall i :: 0 <= i < |names| && Given(get, names[i]) ==> Plain(get[names[i]])
    ensures ParseQuery(QueryOf(path + "?" + Join(Pieces(get, names), '&'))) == GivenPairs(get, names)
  {
    var ps := Pieces(get, names);
    AfterPath(path, Join(ps, '&'));
    ParsePiecesOfPieces(get, names);
    if ps == [] {
      assert Split("", '&') == [""];
    } else {
      SplitJoin(ps, '&');
    }
  }

  lemma {:induction false} NameCharsAll(n: string)
    requires forall i :: 0 <= i < |n| ==> NameChar(n[i])
    ensures NameChars(n)
  {
    if n != [] {
      NameCharsAll(n[1..]);
    }
  }

  lemma {:induction false} LinkNamesAll(names: seq<string>)
    requires forall k :: 0 <= k < |names| ==> names[k] != ""
    requires forall k, i :: 0 <= k < |names| && 0 <= i < |names[k]| ==> NameChar(names[k][i])
    ensures LinkNames(names)
  {
    if names != [] {
      NameCharsAll(names[0]);
      LinkNamesAll(names[1..]);
    }
  }

  /** The global view's parameter names are link names. */
  lemma GlobalNamesValid()
    ensures LinkNames(GlobalLinkNames)
  {
    LinkNamesAll(GlobalLinkNames);
  }

  /** The per-source view's parameter names are link names. */
  lemma SourceNamesValid()
    ensures LinkNames(SourceLinkNames)
  {
    LinkNamesAll(SourceLinkNames);
  }

  /**
   * The global view's link reads back as exactly its given search
   * parameters, in link order, when no value holds '&', '%' or '+'.
   */
  lemma GlobalLinkRoundTrip(path: string, get: Params)
    requires '?' !in path
    requires forall n :: n in GlobalLinkNames && Given(get, n) ==> Plain(get[n])
    ensures ParseQuery(QueryOf(path + "?" + Join(Pieces(get, GlobalLinkNames), '&'))) ==
      GivenPairs(get, GlobalLinkNames)
  {
    GlobalNamesValid();
    LinkRoundTrip(path, get, GlobalLinkNames);
  }

  /** The same for the per-source view's link. */
  lemma SourceLinkRoundTrip(path: string, get: Params)
    requires '?' !in path
    requires forall n :: n in SourceLinkNames && Given(get, n) ==> Plain(get[n])
    ensures ParseQuery(QueryOf(path + "?" + Join(Pieces(get, SourceLinkNames), '&'))) ==
      GivenPairs(get, SourceLinkNames)
  {
    SourceNamesValid();
    LinkRoundTrip(path, get, SourceLinkNames);
  }

  lemma {:induction false} PiecesNone(get: Params, names: seq<string>)
    requires forall i :: 0 <= i < |names| ==> !Given(get, names[i])
    ensures Pieces(get, names) == [] && GivenPairs(get, names) == []
  {
    if names != [] {
      PiecesNone(get, names[..|names| - 1]);
    }
  }

  /** With only a search-bar term given, the global link has that one piece. */
  lemma SearchBarOnlyPieces(value: string)
    requires value != ""
    ensures var get := map["search_bar" := value];
      && Pieces(get, GlobalLinkNames) == ["search_bar=" + value]
      && GivenPairs(get, GlobalLinkNames) == [Pair("search_bar", value)]
  {
    var get := map["search_bar" := value];
    var init := GlobalLinkNames[..9];
    assert forall i :: 0 <= i < |init| ==> |init[i]| != |"search_bar"|;
    PiecesNone(get, init);
    assert "search_bar" + "=" + value == "search_bar=" + value;
  }

  lemma ParsePieceOf(n: string, v: string)
    requires '=' !in n && '%' !in n && '+' !in n && '%' !in v && '+' !in v
    ensures ParsePiece(n + "=" + v) == Pair(n, v)
  {
    SeparatedAt(n, v, '=');
    assert n + "=" + v == n + ['='] + v;
    UnquotePlain(n);
    UnquotePlain(v);
  }

  lemma {:induction false} ParsePieceBare(w: string)
    requires '=' !in w && '%' !in w && '+' !in w
    ensures ParsePiece(w) == Pair(w, "")
  {
    SeparatedAt(w, "", '=');
    assert UpTo(w, '=') == w && AfterFirst(w, '=') == "" by {
      NoSeparator(w, '=');
    }
    UnquotePlain(w);
  }

  lemma {:induction false} NoSeparator(w: string, c: char)
    requires c !in w
    ensures UpTo(w, c) == w && AfterFirst(w, c) == ""
  {
    if w != [] {
      assert c !in w[1..] by {
        forall x | x in w[1..] ensures x != c {
          assert x in w;
        }
      }
      NoSeparator(w[1..], c);
      assert [w[0]] + w[1..] == w;
    }
  }

  /** Two non-empty pieces without '&' read back as two parameters. */
  lemma ParseTwoPieces(p: string, q: string)
    requires p != "" && q != "" && '&' !in p && '&' !in q
    ensures ParseQuery(p + "&" + q) == [ParsePiece(p), ParsePiece(q)]
  {
    assert p + "&" + q == p + ['&'] + q;
    SplitAfter(p, q, '&');
    SplitFree(q, '&');
    assert ParsePieces([p, q]) == [ParsePiece(p)] + ParsePieces([q]);
  }

  /** "keyword=x&y" reads back as the keyword x and a parameter y. */
  lemma ParseSearchBarAmpersand(x: string, y: string)
    requires x != "" && y != "" && Plain(x) && Plain(y) && '=' !in y
    ensures ParseQuery("search_bar=" + x + "&" + y) == [Pair("search_bar", x), Pair(y, "")]
  {
    var k := "search_bar";
    assert "search_bar=" + x == k + "=" + x;
    assert '&' !in k + "=" + x;
    ParseTwoPieces(k + "=" + x, y);
    ParsePieceOf(k, x);
    ParsePieceBare(y);
  }

  /**
   * The link does not percent-encode: a search-bar term "a&b" comes back as
   * the term "a" and a stray parameter "b", so the search a column heading
   * re-runs is not the search on the page.
   */
  lemma AmpersandSplitsSearchTerm()
    ensures var get := map["search_bar" := "a&b"];
      && GivenPairs(get, GlobalLinkNames) == [Pair("search_bar", "a&b")]
      && ParseQuery(Join(Pieces(get, GlobalLinkNames), '&')) == [Pair("search_bar", "a"), Pair("b", "")]
  {
    SearchBarOnlyPieces("a&b");
    assert "search_bar=" + "a&b" == "search_bar=" + "a" + "&" + "b";
    ParseSearchBarAmpersand("a", "b");
  }

  // ---------------------------------------------------------------------------
  // The link with its values encoded

  /** The characters that would change the meaning of a value in a query string. */
  predicate Reserved(c: char) {
    c == '%' || c == '&' || c == '+' || c == '#'
  }

  function QuoteChar(c: char): string {
    if c == '%' then "%25"
    else if c == '&' then "%26"
    else if c == '+' then "%2B"
    else if c == '#' then "%23"
    else [c]
  }

  /** Percent-encoding of the reserved characters. */
  function Quote(s: string): (r: string)
    ensures '&' !in r
  {
    if s == [] then [] else QuoteChar(s[0]) + Quote(s[1..])
  }

  lemma {:induction false} UnquoteQuote(s: string)
    ensures Unquote(Quote(s)) == s
  {
    if s != [] {
      var c, rest := s[0], Quote(s[1..]);
      UnquoteQuote(s[1..]);
      if Reserved(c) {
        var q := QuoteChar(c) + rest;
        assert q[0] == '%' && IsHex(q[1]) && IsHex(q[2]) && q[3..] == rest;
        assert (16 * HexValue(q[1]) + HexValue(q[2])) as char == c;
      } else {
        assert (QuoteChar(c) + rest)[1..] == rest;
      }
      assert [s[0]] + s[1..] == s;
    }
  }

  function EncodedPiece(get: Params, name: string): seq<string> {
    if Given(get, name) then [name + "=" + Quote(get[name])] else []
  }

  function EncodedPieces(get: Params, names: seq<string>): seq<string> {
    if names == [] then []
    else EncodedPieces(get, names[..|names| - 1]) + EncodedPiece(get, names[|names| - 1])
  }

  lemma {:induction false} ParseEncodedPieces(get: Params, names: seq<string>)
    requires LinkNames(names)
    ensures ParsePieces(EncodedPieces(get, names)) == GivenPairs(get, names)
    ensures forall p :: p in EncodedPieces(get, names) ==> '&' !in p
  {
    if names != [] {
      var init, n := names[..|names| - 1], names[|names| - 1];
      LinkNamesInit(names);
      LinkNamesMember(names, n);
      ParseEncodedPieces(get, init);
      ParsePiecesConcat(EncodedPieces(get, init), EncodedPiece(get, n));
      if Given(get, n) {
        var v := Quote(get[n]);
        SeparatedAt(n, v, '=');
        assert n + "=" + v == n + ['='] + v;
        UnquotePlain(n);
        UnquoteQuote(get[n]);
        assert ParsePieces([n + "=" + v]) == [ParsePiece(n + "=" + v)];
      }
    }
  }

  /** With its values encoded, the link carries every search exactly, whatever the values hold. */
  lemma EncodedLinkRoundTrip(path: string, get: Params, names: seq<string>)
    requires '?' !in path
    requires LinkNames(names)
    ensures ParseQuery(QueryOf(path + "?" + Join(EncodedPieces(get, names), '&'))) == GivenPairs(get, names)
  {
    var ps := EncodedPieces(get, names);
    AfterPath(path, Join(ps, '&'));
    ParseEncodedPieces(get, names);
    if ps == [] {
      assert Split("", '&') == [""];
    } else {
      SplitJoin(ps, '&');
    }
  }
}
