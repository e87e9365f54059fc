/** The query string of a `/map?...` link: how the landing page writes it and how
    `searchParams.get(name)` reads a parameter back on the next page. */
module Query {
  import opened Lists
  import opened Text

  /** The part of a URL between the first '?' and the fragment. */
  function SearchPart(url: string): string {
    var h := IndexOf(url, '#');
    var u := if h == -1 then url else url[..h];
    var q := IndexOf(u, '?');
    if q == -1 then "" else u[q + 1..]
  }

  /** One `name=value` piece, split at its first '='; without '=' the value is empty. */
  function PairOf(piece: string): (string, string) {
    var e := IndexOf(piece, '=');
    if e == -1 then (piece, "") else (piece[..e], piece[e + 1..])
  }

  /** The value of the first non-empty piece named `name`. */
  function Lookup(pieces: seq<string>, name: string): Option<string> {
    if pieces == [] then None
    else if pieces[0] != "" && PairOf(pieces[0]).0 == name then Some(PairOf(pieces[0]).1)
    else Lookup(pieces[1..], name)
  }

  /** `new URLSearchParams(search).get(name)`, for text without percent escapes or '+'. */
  function SearchParam(url: string, name: string): Option<string> {
    Lookup(SplitOn(SearchPart(url), '&'), name)
  }

  /** A parameter name that needs no escaping and cannot be confused with a separator. */
  predicate PlainName(s: string) {
    s != "" && '=' !in s && '&' !in s && '#' !in s && '%' !in s && '+' !in s
  }

  /** A parameter value that needs no escaping. */
  predicate PlainValue(s: string) {
    '&' !in s && '#' !in s && '%' !in s && '+' !in s
  }

  /** `name=value` pairs joined by '&'. */
  function RenderQuery(pairs: seq<(string, string)>): string {
    Join(seq(|pairs|, k requires 0 <= k < |pairs| => pairs[k].0 + "=" + pairs[k].1), '&')
  }

  /** The value of the first pair named `name`. */
  function FirstValue(pairs: seq<(string, string)>, name: string): Option<string> {
    if pairs == [] then None
    else if pairs[0].0 == name then Some(pairs[0].1)
    else FirstValue(pairs[1..], name)
  }

  /** The value of the first pair of a given name is its value. */
  lemma {:induction false} FirstValueAt(pairs: seq<(string, string)>, k: int)
    requires 0 <= k < |pairs|
    requires forall j :: 0 <= j < k ==> pairs[j].0 != pairs[k].0
    ensures FirstValue(pairs, pairs[k].0) == Some(pairs[k].1)
  {
    if k > 0 {
      FirstValueAt(pairs[1..], k - 1);
    }
  }

  /** A name no pair carries has no value. */
  lemma {:induction false} FirstValueAbsent(pairs: seq<(string, string)>, name: string)
    requires forall j :: 0 <= j < |pairs| ==> pairs[j].0 != name
    ensures FirstValue(pairs, name) == None
  {
    if pairs != [] {
      FirstValueAbsent(pairs[1..], name);
    }
  }

  /** Reading a parameter back from a rendered link gives the value written, as long as
      names and values are plain. */
  lemma SearchParamOfRendered(path: string, pairs: seq<(string, string)>, name: string)
    requires '?' !in path && '#' !in path
    requires |pairs| >= 1
    requires forall k :: 0 <= k < |pairs| ==> PlainName(pairs[k].0) && PlainValue(pairs[k].1)
    ensures SearchParam(path + "?" + RenderQuery(pairs), name) == FirstValue(pairs, name)
  {
    var pieces := seq(|pairs|, k requires 0 <= k < |pairs| => pairs[k].0 + "=" + pairs[k].1);
    var q := RenderQuery(pairs);
    var url := path + "?" + q;
    forall k | 0 <= k < |pairs| ensures '&' !in pieces[k] && '#' !in pieces[k] {
      assert pieces[k] == pairs[k].0 + "=" + pairs[k].1;
    }
    NoCharInJoin(pieces, '&', '#');
    assert '#' !in url;
    assert IndexOf(url, '#') == -1;
    assert IndexOf(url, '?') == |path| by {
      assert url[|path|] == '?';
      assert forall k :: 0 <= k < |path| ==> url[k] == path[k];
    }
    assert url[|path| + 1..] == q;
    assert SearchPart(url) == q;
    SplitJoin(pieces, '&');
    LookupPieces(pairs, pieces, name);
  }

  /** Rendering a list of pairs, one pair at a time. */
  lemma RenderCons(p: (string, string), rest: seq<(string, string)>)
    ensures rest == [] ==> RenderQuery([p] + rest) == p.0 + "=" + p.1
    ensures rest != [] ==> RenderQuery([p] + rest) == p.0 + "=" + p.1 + "&" + RenderQuery(rest)
  {
    var all := [p] + rest;
    var pieces := seq(|all|, k requires 0 <= k < |all| => all[k].0 + "=" + all[k].1);
    var restPieces := seq(|rest|, k requires 0 <= k < |rest| => rest[k].0 + "=" + rest[k].1);
    assert pieces[1..] == restPieces;
  }

  /** A character in none of the pieces nor the separator is not in their join. */
  lemma {:induction false} NoCharInJoin(parts: seq<string>, sep: char, c: char)
    requires c != sep
    requires forall k :: 0 <= k < |parts| ==> c !in parts[k]
    ensures c !in Join(parts, sep)
  {
    if |parts| > 1 {
      NoCharInJoin(parts[1..], sep, c);
      assert c !in parts[0];
    }
  }

  lemma {:induction false} LookupPieces(pairs: seq<(string, string)>, pieces: seq<string>, name: string)
    requires |pieces| == |pairs|
    requires forall k :: 0 <= k < |pairs| ==> PlainName(pairs[k].0) && PlainValue(pairs[k].1)
    requires forall k :: 0 <= k < |pairs| ==> pieces[k] == pairs[k].0 + "=" + pairs[k].1
    ensures Lookup(pieces, name) == FirstValue(pairs, name)
  {
    if pairs != [] {
      var n, v := pairs[0].0, pairs[0].1;
      var p := pieces[0];
      assert p == n + "=" + v;
      assert IndexOf(p, '=') == |n| by {
        assert p[|n|] == '=';
        assert forall k :: 0 <= k < |n| ==> p[k] == n[k];
      }
      assert p[..|n|] == n && p[|n| + 1..] == v;
      assert p != "";
      LookupPieces(pairs[1..], pieces[1..], name);
    }
  }
}
