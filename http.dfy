/** Requests as the API wrappers hand them to the HTTP client, and the
  * `URLSearchParams` behaviour they rely on (percent-encoding aside). */
module Http {
  import opened Wrappers
  import opened Strings

  datatype Method = Get | Post | Patch

  /** One call to the HTTP client: method, URL relative to the API base, and body. */
  datatype Request<B> = Request(verb: Method, url: string, body: Option<B>)

  /** The absolute path with the given segments, `/s1/s2/...`. */
  function Path(segments: seq<string>): (p: string)
    requires |segments| >= 1
    ensures |p| >= 1 && p[0] == '/'
  {
    Join([""] + segments, '/')
  }

  lemma {:induction false} JoinSnoc(parts: seq<string>, last: string, sep: char)
    requires |parts| >= 1
    ensures Join(parts + [last], sep) == Join(parts, sep) + [sep] + last
    decreases |parts|
  {
    assert (parts + [last])[0] == parts[0];
    assert (parts + [last])[1..] == parts[1..] + [last];
    if |parts| > 1 {
      JoinSnoc(parts[1..], last, sep);
    }
  }

  /** One more segment appends `/segment` to the path. */
  lemma PathSnoc(segments: seq<string>, last: string)
    requires |segments| >= 1
    ensures Path(segments + [last]) == Path(segments) + "/" + last
  {
    assert [""] + (segments + [last]) == ([""] + segments) + [last];
    JoinSnoc([""] + segments, last, '/');
  }

  lemma PathOne(segment: string)
    ensures Path([segment]) == "/" + segment
  {
    assert Join([segment], '/') == segment;
  }

  /** `/v1/organizations/{organizationId}`, the prefix of every API path. */
  lemma OrganizationPath(organizationId: string)
    ensures Path(["v1", "organizations", organizationId]) == "/v1/organizations/" + organizationId
  {
    PathOne("v1");
    assert ["v1"] + ["organizations"] == ["v1", "organizations"];
    PathSnoc(["v1"], "organizations");
    assert ["v1", "organizations"] + [organizationId] == ["v1", "organizations", organizationId];
    PathSnoc(["v1", "organizations"], organizationId);
    assert "/v1" + "/" + "organizations" == "/v1/organizations";
  }

  /** A character that is in no segment, and is not `/`, is not in the path. */
  lemma {:induction false} JoinAvoids(parts: seq<string>, sep: char, c: char)
    requires |parts| >= 1 && c != sep
    requires forall i :: 0 <= i < |parts| ==> c !in parts[i]
    ensures c !in Join(parts, sep)
    decreases |parts|
  {
    if |parts| > 1 {
      JoinAvoids(parts[1..], sep, c);
    }
  }

  /** A path splits back into its segments when none of them holds a `/`. */
  lemma PathSegments(segments: seq<string>)
    requires |segments| >= 1
    requires forall i :: 0 <= i < |segments| ==> '/' !in segments[i]
    ensures Split(Path(segments), '/') == [""] + segments
  {
    SplitJoin([""] + segments, '/');
  }

  lemma PathAvoids(segments: seq<string>, c: char)
    requires |segments| >= 1 && c != '/'
    requires forall i :: 0 <= i < |segments| ==> c !in segments[i]
    ensures c !in Path(segments)
  {
    JoinAvoids([""] + segments, '/', c);
  }

  function Pair(p: (string, string)): string
  {
    p.0 + "=" + p.1
  }

  /** `new URLSearchParams(pairs).toString()` with keys and values written as they are. */
  function QueryString(pairs: seq<(string, string)>): (q: string)
    ensures q == "" <==> pairs == []
  {
    if pairs == [] then ""
    else
      var parts := seq(|pairs|, i requires 0 <= i < |pairs| => Pair(pairs[i]));
      assert '=' in parts[0];
      assert |Join(parts, '&')| >= |parts[0]| by { JoinPrefix(parts, '&'); }
      Join(parts, '&')
  }

  lemma SingleQuery(key: string, value: string)
    ensures QueryString([(key, value)]) == key + "=" + value
  {
    var parts := seq(1, i requires 0 <= i < 1 => Pair([(key, value)][i]));
    assert parts == [key + "=" + value];
  }

  lemma JoinPrefix(parts: seq<string>, sep: char)
    requires |parts| >= 1
    ensures |Join(parts, sep)| >= |parts[0]|
  {
  }

  /** `s` cut at its first `c`: what precedes it and what follows it (all of `s` and the
    * empty string when there is none), as a query parser reads `key=value`. */
  function SplitAtFirst(s: string, c: char): (string, string)
    decreases |s|
  {
    if s == [] then ("", "")
    else if s[0] == c then ("", s[1..])
    else
      var rest := SplitAtFirst(s[1..], c);
      ([s[0]] + rest.0, rest.1)
  }

  lemma {:induction false} SplitAtFirstPair(key: string, c: char, value: string)
    requires c !in key
    ensures SplitAtFirst(key + [c] + value, c) == (key, value)
    decreases |key|
  {
    if key == [] {
      assert key + [c] + value == [c] + value;
    } else {
      assert (key + [c] + value)[0] == key[0];
      assert (key + [c] + value)[1..] == key[1..] + [c] + value;
      SplitAtFirstPair(key[1..], c, value);
      assert [key[0]] + key[1..] == key;
    }
  }

  /** Reading a query string back into its pairs. */
  function ParseQuery(q: string): seq<(string, string)>
  {
    if q == "" then []
    else
      var parts := Split(q, '&');
      seq(|parts|, i requires 0 <= i < |parts| => SplitAtFirst(parts[i], '='))
  }

  predicate PlainPair(p: (string, string))
  {
    '=' !in p.0 && '&' !in p.0 && '&' !in p.1
  }

  /** The query string loses nothing: pairs whose keys hold neither `=` nor `&` and whose
    * values hold no `&` are read back as written. */
  lemma QueryRoundTrip(pairs: seq<(string, string)>)
    requires forall i :: 0 <= i < |pairs| ==> PlainPair(pairs[i])
    ensures ParseQuery(QueryString(pairs)) == pairs
  {
    if pairs != [] {
      var parts := seq(|pairs|, i requires 0 <= i < |pairs| => Pair(pairs[i]));
      forall i | 0 <= i < |parts| ensures '&' !in parts[i] {
        assert parts[i] == pairs[i].0 + "=" + pairs[i].1;
      }
      SplitJoin(parts, '&');
      forall i | 0 <= i < |pairs| ensures SplitAtFirst(parts[i], '=') == pairs[i] {
        SplitAtFirstPair(pairs[i].0, '=', pairs[i].1);
        assert parts[i] == pairs[i].0 + ['='] + pairs[i].1;
      }
    }
  }

  /** `path` followed by `?query` only when the query is non-empty. */
  function WithQuery(path: string, query: string): (url: string)
    ensures query == "" ==> url == path
    ensures query != "" ==> url == path + "?" + query
  {
    if query == "" then path else path + "?" + query
  }

  /** A URL carries a `?` exactly when its query is non-empty, if the path has none. */
  lemma QueryMark(path: string, query: string)
    requires '?' !in path
    ensures '?' in WithQuery(path, query) <==> query != ""
  {
    if query != "" {
      assert WithQuery(path, query)[|path|] == '?';
    }
  }

  function Keys<V>(pairs: seq<(string, V)>): (ks: seq<string>)
    ensures |ks| == |pairs|
  {
    seq(|pairs|, i requires 0 <= i < |pairs| => pairs[i].0)
  }

  lemma KeysAppend<V>(a: seq<(string, V)>, b: seq<(string, V)>)
    ensures Keys(a + b) == Keys(a) + Keys(b)
  {
  }

  /** The keys of a JavaScript object's entries are distinct. */
  predicate DistinctKeys<V>(pairs: seq<(string, V)>)
  {
    forall i, j :: 0 <= i < j < |pairs| ==> pairs[i].0 != pairs[j].0
  }

  lemma KeyOf<V>(pairs: seq<(string, V)>, p: (string, V))
    requires p in pairs
    ensures p.0 in Keys(pairs)
  {
    var i :| 0 <= i < |pairs| && pairs[i] == p;
    assert Keys(pairs)[i] == p.0;
  }

  /** The pairs other than those with `key`. */
  function Without(pairs: seq<(string, string)>, key: string): seq<(string, string)>
    decreases |pairs|
  {
    if pairs == [] then []
    else (if pairs[0].0 == key then [] else [pairs[0]]) + Without(pairs[1..], key)
  }

  /** `Without` keeps exactly the pairs with another key, so the key is gone. */
  lemma {:induction false} WithoutMembers(pairs: seq<(string, string)>, key: string)
    ensures key !in Keys(Without(pairs, key))
    ensures forall p :: p in Without(pairs, key) <==> p in pairs && p.0 != key
    decreases |pairs|
  {
    if pairs != [] {
      WithoutMembers(pairs[1..], key);
      var head := if pairs[0].0 == key then [] else [pairs[0]];
      var rest := Without(pairs[1..], key);
      assert Without(pairs, key) == head + rest;
      KeysAppend(head, rest);
      assert Keys(head) == if pairs[0].0 == key then [] else [pairs[0].0];
      assert pairs == [pairs[0]] + pairs[1..];
    }
  }

  /** The position of the first pair holding `key`. */
  function FirstIndex(pairs: seq<(string, string)>, key: string): (i: nat)
    requires key in Keys(pairs)
    ensures i < |pairs| && pairs[i].0 == key
    ensures key !in Keys(pairs[..i])
    decreases |pairs|
  {
    if pairs[0].0 == key then
      assert Keys(pairs[..0]) == [];
      0
    else
      assert Keys(pairs) == [pairs[0].0] + Keys(pairs[1..]);
      var j := FirstIndex(pairs[1..], key);
      assert pairs[..j + 1] == [pairs[0]] + pairs[1..][..j];
      KeysAppend([pairs[0]], pairs[1..][..j]);
      j + 1
  }

  /** `URLSearchParams.set(key, value)` (and property assignment on a record): a new key
    * goes at the end; an existing key keeps the place of its first pair, takes the new
    * value, and loses its other pairs. */
  function SetPair(pairs: seq<(string, string)>, key: string, value: string): (r: seq<(string, string)>)
    ensures key !in Keys(pairs) ==> r == pairs + [(key, value)]
    ensures key in Keys(pairs) ==>
      r == pairs[..FirstIndex(pairs, key)] + [(key, value)] + Without(pairs[FirstIndex(pairs, key) + 1..], key)
    ensures (key, value) in r
    ensures forall p :: p in r && p.0 == key ==> p.1 == value
    ensures forall p :: p in pairs && p.0 != key ==> p in r
    ensures forall p :: p in r && p.0 != key ==> p in pairs
  {
    if key !in Keys(pairs) then
      AbsentKey(pairs, key);
      pairs + [(key, value)]
    else
      var i := FirstIndex(pairs, key);
      assert forall j :: 0 <= j < i ==> pairs[j].0 != key by {
        forall j | 0 <= j < i ensures pairs[j].0 != key { assert Keys(pairs[..i])[j] == pairs[j].0; }
      }
      ReplacedAt(pairs, key, value, i);
      ReplacedMembers(pairs, key, value, i);
      Replaced(pairs, key, value)
  }

  /** A key missing from the keys is held by no pair. */
  lemma AbsentKey(pairs: seq<(string, string)>, key: string)
    requires key !in Keys(pairs)
    ensures forall p :: p in pairs ==> p.0 != key
  {
    forall p | p in pairs
      ensures p.0 != key
    {
      KeyOf(pairs, p);
    }
  }

  /** The pairs with the first pair holding `key` given `value` and the later ones dropped. */
  function Replaced(pairs: seq<(string, string)>, key: string, value: string): seq<(string, string)>
    decreases |pairs|
  {
    if pairs == [] then []
    else if pairs[0].0 == key then [(key, value)] + Without(pairs[1..], key)
    else [pairs[0]] + Replaced(pairs[1..], key, value)
  }

  /** Pairs before the first one holding `key` pass through unchanged. */
  lemma {:induction false} ReplacedPrefix(pairs: seq<(string, string)>, key: string, value: string, i: nat)
    requires i <= |pairs|
    requires forall j :: 0 <= j < i ==> pairs[j].0 != key
    ensures Replaced(pairs, key, value) == pairs[..i] + Replaced(pairs[i..], key, value)
    decreases i
  {
    if i == 0 {
      assert pairs[..0] == [] && pairs[0..] == pairs;
    } else {
      var tail := pairs[1..];
      assert pairs[0].0 != key;
      assert forall j :: 0 <= j < i - 1 ==> tail[j].0 != key by {
        forall j | 0 <= j < i - 1 ensures tail[j].0 != key { assert tail[j] == pairs[j + 1]; }
      }
      ReplacedPrefix(tail, key, value, i - 1);
      var rest := Replaced(pairs[i..], key, value);
      assert tail[i - 1..] == pairs[i..];
      assert Replaced(pairs, key, value) == [pairs[0]] + (tail[..i - 1] + rest);
      assert pairs[..i] == [pairs[0]] + tail[..i - 1];
      assert [pairs[0]] + (tail[..i - 1] + rest) == ([pairs[0]] + tail[..i - 1]) + rest;
    }
  }

  /** With the first pair holding `key` at `i`, the new pair goes at `i`, the pairs before
    * it stay, and the pairs after it stay except those holding `key`. */
  lemma ReplacedAt(pairs: seq<(string, string)>, key: string, value: string, i: nat)
    requires i < |pairs| && pairs[i].0 == key
    requires forall j :: 0 <= j < i ==> pairs[j].0 != key
    ensures Replaced(pairs, key, value) == pairs[..i] + [(key, value)] + Without(pairs[i + 1..], key)
  {
    ReplacedPrefix(pairs, key, value, i);
    var rest := pairs[i..];
    assert rest[0].0 == key && rest[1..] == pairs[i + 1..];
    assert Replaced(rest, key, value) == [(key, value)] + Without(pairs[i + 1..], key);
  }

  /** What the pairs around the first pair holding `key` say about membership. */
  lemma ReplacedMembers(pairs: seq<(string, string)>, key: string, value: string, i: nat)
    requires i < |pairs| && pairs[i].0 == key && key !in Keys(pairs[..i])
    ensures var r := pairs[..i] + [(key, value)] + Without(pairs[i + 1..], key);
      && (forall p :: p in r && p.0 == key ==> p.1 == value)
      && (forall p :: p in pairs && p.0 != key ==> p in r)
      && (forall p :: p in r && p.0 != key ==> p in pairs)
  {
    var before, after := pairs[..i], pairs[i + 1..];
    WithoutMembers(after, key);
    assert pairs == before + [pairs[i]] + after;
    forall p | p in before
      ensures p.0 != key && p in pairs
    {
      KeyOf(before, p);
    }
  }

  /** A local `URLSearchParams` object. */
  class SearchParams {
    var pairs: seq<(string, string)>

    /** `new URLSearchParams()`. */
    constructor ()
      ensures pairs == []
    {
      pairs := [];
    }

    /** `new URLSearchParams(record)`, for a record's entries in insertion order. */
    constructor FromRecord(record: seq<(string, string)>)
      ensures pairs == record
    {
      pairs := record;
    }

    /** `search.set(key, value)`. */
    method Set(key: string, value: string)
      modifies this
      ensures pairs == SetPair(old(pairs), key, value)
    {
      pairs := SetPair(pairs, key, value);
    }

    /** `search.toString()`. */
    function ToString(): string
      reads this
    {
      QueryString(pairs)
    }
  }

  function BoolString(b: bool): string
  {
    if b then "true" else "false"
  }
}
