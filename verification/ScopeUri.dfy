/** Scope URIs: an id, then '?', then '&'-separated tokens of which those of the form filter_key=value
    are kept (dash/DashViewPrivate.cpp). */
module ScopeUri {

  datatype ScopeFilter = ScopeFilter(id: string, filters: map<string, string>)

  const FILTER_PREFIX := "filter_"

  /** Position of the first c, or the length. */
  function Find(s: string, c: char): (pos: nat)
    ensures pos <= |s| && (pos < |s| ==> s[pos] == c) && forall i | 0 <= i < pos :: s[i] != c
  {
    if s == "" || s[0] == c then 0 else 1 + Find(s[1..], c)
  }

  /** Cuts at every c; adjacent separators give empty tokens. */
  function Split(s: string, c: char): (tokens: seq<string>)
    ensures tokens != [] && forall i | 0 <= i < |tokens| :: c !in tokens[i]
    decreases |s|
  {
    var pos := Find(s, c);
    if pos == |s| then [s] else [s[..pos]] + Split(s[pos + 1..], c)
  }

  function Join(tokens: seq<string>, c: char): string {
    if tokens == [] then "" else if |tokens| == 1 then tokens[0] else tokens[0] + [c] + Join(tokens[1..], c)
  }

  lemma JoinCons(head: string, tail: seq<string>, c: char)
    requires tail != []
    ensures Join([head] + tail, c) == head + [c] + Join(tail, c)
  {
    assert ([head] + tail)[1..] == tail;
  }

  lemma {:induction false} JoinOfSplit(s: string, c: char)
    ensures Join(Split(s, c), c) == s
    decreases |s|
  {
    var pos := Find(s, c);
    if pos < |s| {
      var rest := s[pos + 1..];
      JoinOfSplit(rest, c);
      JoinCons(s[..pos], Split(rest, c), c);
      assert s[..pos] + [c] + rest == s by {
        hide *;
        assert s[pos] == c;
      }
    } else {
      assert Join([s], c) == s;
    }
  }

  lemma FindAfter(s: string, t: string, c: char)
    requires c !in s
    ensures Find(s + [c] + t, c) == |s| && Find(s, c) == |s|
  {
    var w := s + [c] + t;
    assert forall i | 0 <= i < |s| :: w[i] == s[i] && s[i] in s;
    assert w[|s|] == c;
  }

  lemma {:induction false} SplitOfJoin(tokens: seq<string>, c: char)
    requires tokens != [] && forall i | 0 <= i < |tokens| :: c !in tokens[i]
    ensures Split(Join(tokens, c), c) == tokens
  {
    var rest := tokens[1..];
    if rest == [] {
      FindAfter(tokens[0], "", c);
    } else {
      var s := tokens[0] + [c] + Join(rest, c);
      FindAfter(tokens[0], Join(rest, c), c);
      SplitOfJoin(rest, c);
      assert s[..|tokens[0]|] == tokens[0] && s[|tokens[0]| + 1..] == Join(rest, c);
    }
  }

  // ---------------------------------------------------------------------------------
  // The parser

  /** What one token does to the filters. */
  function Applied(filters: map<string, string>, token: string): map<string, string> {
    var pos := Find(token, '=');
    if pos < |token| && FILTER_PREFIX <= token[..pos]
    then filters[token[..pos][|FILTER_PREFIX|..] := token[pos + 1..]]
    else filters
  }

  function Collected(tokens: seq<string>): map<string, string> {
    if tokens == [] then map[] else Applied(Collected(tokens[..|tokens| - 1]), tokens[|tokens| - 1])
  }

  /** A URI without '?' is an id alone. */
  function Parsed(uri: string): ScopeFilter {
    var pos := Find(uri, '?');
    if pos == |uri| then ScopeFilter(uri, map[])
    else ScopeFilter(uri[..pos], Collected(Split(uri[pos + 1..], '&')))
  }

  method ParseScopeUri(uri: string) returns (filter: ScopeFilter)
    ensures filter == Parsed(uri)
  {
    filter := ScopeFilter(uri, map[]);
    var pos := Find(uri, '?');
    if pos < |uri| {
      var components := uri[pos + 1..];
      var tokens := Split(components, '&');
      var filters: map<string, string> := map[];
      for i := 0 to |tokens|
        invariant filters == Collected(tokens[..i])
      {
        assert tokens[..i + 1][..i] == tokens[..i];
        var token := tokens[i];
        var equals := Find(token, '=');
        if equals < |token| {
          var key, value := token[..equals], token[equals + 1..];
          if FILTER_PREFIX <= key {
            filters := filters[key[|FILTER_PREFIX|..] := value];
          }
        }
      }
      assert tokens[..|tokens|] == tokens;
      filter := ScopeFilter(uri[..pos], filters);
    }
  }

  // ---------------------------------------------------------------------------------
  // Round trip

  datatype Piece = Filter(key: string, value: string) | Other(token: string)

  predicate Clean(p: Piece) {
    match p
    case Filter(key, value) => '=' !in key && '&' !in key && '&' !in value
    case Other(token) => '&' !in token && !("filter_" <= token && '=' in token)
  }

  function Rendered(p: Piece): string {
    match p
    case Filter(key, value) => "filter_" + key + "=" + value
    case Other(token) => token
  }

  function RenderedAll(pieces: seq<Piece>): seq<string> {
    seq(|pieces|, i requires 0 <= i < |pieces| => Rendered(pieces[i]))
  }

  /** The filters hold exactly the given keys, each with the value of its last piece. */
  ghost predicate LastWins(pieces: seq<Piece>, filters: map<string, string>) {
    && (forall i | 0 <= i < |pieces| && pieces[i].Filter? :: pieces[i].key in filters)
    && forall key | key in filters ::
         exists i | 0 <= i < |pieces| ::
           && pieces[i] == Filter(key, filters[key])
           && forall j | i < j < |pieces| :: pieces[j].Filter? ==> pieces[j].key != key
  }

  /** There is only one such map. */
  lemma LastWinsIsUnique(pieces: seq<Piece>, f: map<string, string>, g: map<string, string>)
    requires LastWins(pieces, f) && LastWins(pieces, g)
    ensures f == g
  {
    forall key | key in f ensures key in g && f[key] == g[key] {
      var i :| 0 <= i < |pieces| && pieces[i] == Filter(key, f[key])
        && forall j | i < j < |pieces| :: pieces[j].Filter? ==> pieces[j].key != key;
      var k :| 0 <= k < |pieces| && pieces[k] == Filter(key, g[key])
        && forall j | k < j < |pieces| :: pieces[j].Filter? ==> pieces[j].key != key;
      assert !(i < k) && !(k < i);
    }
    forall key | key in g ensures key in f {
      var k :| 0 <= k < |pieces| && pieces[k] == Filter(key, g[key]);
    }
  }

  /** A filter token sets its key; any other token changes nothing. */
  lemma AppliedPiece(filters: map<string, string>, p: Piece)
    requires Clean(p)
    ensures Applied(filters, Rendered(p)) == if p.Filter? then filters[p.key := p.value] else filters
  {
    var token := Rendered(p);
    var pos := Find(token, '=');
    if p.Filter? {
      var name := FILTER_PREFIX + p.key;
      assert '=' !in FILTER_PREFIX;
      FindAfter(name, p.value, '=');
      assert token == name + ['='] + p.value;
      assert token[..pos] == name && name[|FILTER_PREFIX|..] == p.key && token[pos + 1..] == p.value;
    } else if pos < |token| {
      assert token[pos] in token;
    }
  }

  lemma LastWinsStep(before: seq<Piece>, f: map<string, string>, p: Piece)
    requires LastWins(before, f)
    ensures LastWins(before + [p], if p.Filter? then f[p.key := p.value] else f)
  {
    var pieces, n := before + [p], |before|;
    var g := if p.Filter? then f[p.key := p.value] else f;
    forall key | key in g
      ensures exists i | 0 <= i < |pieces| ::
                && pieces[i] == Filter(key, g[key])
                && forall j | i < j < |pieces| :: pieces[j].Filter? ==> pieces[j].key != key
    {
      if p.Filter? && p.key == key {
        assert pieces[n] == Filter(key, g[key]);
      } else {
        var i :| 0 <= i < n && before[i] == Filter(key, f[key])
          && forall j | i < j < n :: before[j].Filter? ==> before[j].key != key;
        assert pieces[i] == Filter(key, g[key]);
        assert forall j | i < j < |pieces| :: pieces[j] == if j < n then before[j] else p;
      }
    }
  }

  lemma NoPieces()
    ensures LastWins([], map[])
  {
  }

  lemma {:induction false} CollectedLastWins(pieces: seq<Piece>)
    requires forall i | 0 <= i < |pieces| :: Clean(pieces[i])
    ensures LastWins(pieces, Collected(RenderedAll(pieces)))
  {
    hide LastWins, Applied;
    if pieces == [] {
      NoPieces();
    } else {
      var n := |pieces| - 1;
      var before, p := pieces[..n], pieces[n];
      CollectedLastWins(before);
      assert RenderedAll(pieces)[..n] == RenderedAll(before);
      AppliedPiece(Collected(RenderedAll(before)), p);
      LastWinsStep(before, Collected(RenderedAll(before)), p);
      assert before + [p] == pieces;
    }
  }

  /** Joined and split again, the tokens collect to the same filters; no token and one empty token
      look the same and give none. */
  lemma CollectedFromUri(pieces: seq<Piece>)
    requires forall i | 0 <= i < |pieces| :: Clean(pieces[i])
    ensures Collected(Split(Join(RenderedAll(pieces), '&'), '&')) == Collected(RenderedAll(pieces))
  {
    var tokens := RenderedAll(pieces);
    if pieces == [] {
      assert Split("", '&') == [""];
      assert Collected([""]) == Applied(Collected([]), "") == map[];
    } else {
      forall i | 0 <= i < |tokens| ensures '&' !in tokens[i] {
        assert Clean(pieces[i]) && tokens[i] == Rendered(pieces[i]);
      }
      SplitOfJoin(tokens, '&');
    }
  }

  /** A URI without '?' is a plain id. */
  lemma PlainIdIsKept(uri: string)
    requires '?' !in uri
    ensures Parsed(uri) == ScopeFilter(uri, map[])
  {
    FindAfter(uri, "", '?');
  }

  lemma OneToken(id: string, token: string)
    requires '?' !in id && '&' !in token
    ensures Parsed(id + ['?'] + token) == ScopeFilter(id, Applied(map[], token))
  {
    var uri := id + ['?'] + token;
    FindAfter(id, token, '?');
    FindAfter(token, "", '&');
    assert uri[..|id|] == id && uri[|id| + 1..] == token;
    assert Collected([token]) == Applied(Collected([token][..0]), token);
  }

  lemma GenreToken()
    ensures Applied(map[], "filter_genre=rock") == map["genre" := "rock"]
    ensures '&' !in "filter_genre=rock" && '?' !in "music.scope"
  {
    hide Find, Applied;
    AppliedPiece(map[], Filter("genre", "rock"));
    assert Rendered(Filter("genre", "rock")) == "filter_genre=rock";
  }

  /** A URI as other parts of the shell write it. */
  lemma GenreExample()
    ensures Parsed("music.scope?filter_genre=rock") == ScopeFilter("music.scope", map["genre" := "rock"])
  {
    hide *;
    GenreToken();
    assert "music.scope?filter_genre=rock" == "music.scope" + ['?'] + "filter_genre=rock";
    OneToken("music.scope", "filter_genre=rock");
  }

  /** Building a URI from an id and any clean pieces and parsing it gives back the id and the last
      value of every key, whatever other tokens stand between; an empty list of pieces included. */
  lemma ParsedRoundTrip(id: string, pieces: seq<Piece>)
    requires '?' !in id && forall i | 0 <= i < |pieces| :: Clean(pieces[i])
    ensures var filter := Parsed(id + "?" + Join(RenderedAll(pieces), '&'));
      filter.id == id && LastWins(pieces, filter.filters)
  {
    hide Split, Collected, RenderedAll, Join, LastWins;
    var components := Join(RenderedAll(pieces), '&');
    var uri := id + ['?'] + components;
    FindAfter(id, components, '?');
    assert uri[..|id|] == id && uri[|id| + 1..] == components;
    CollectedFromUri(pieces);
    CollectedLastWins(pieces);
  }
}
