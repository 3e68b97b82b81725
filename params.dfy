/** HeaderParams: the ordered key -> value parameters of URIs and header
    values (`;transport=udp`, `;tag=1`, `;branch=...`). Keys are unique; an
    Add of an existing key replaces its value in place. The Go type's own
    source is not part of this model; these definitions are a stand-in with
    the behaviour its callers rely on. */
module HeaderParams {
  import opened Common
  import Text

  type Params = seq<(string, string)>

  predicate UniqueKeys(p: Params) {
    forall i, j :: 0 <= i < j < |p| ==> p[i].0 != p[j].0
  }

  predicate HasKey(p: Params, k: string) {
    exists i :: 0 <= i < |p| && p[i].0 == k
  }

  /** Position of the first parameter named `k`, or -1. */
  function KeyIndex(p: Params, k: string): (r: int)
    ensures -1 <= r < |p|
    ensures r == -1 <==> !HasKey(p, k)
    ensures 0 <= r ==> p[r].0 == k && forall i :: 0 <= i < r ==> p[i].0 != k
  {
    if |p| == 0 then -1
    else if p[0].0 == k then 0
    else
      var r := KeyIndex(p[1..], k);
      assert forall i :: 1 <= i < |p| ==> p[i] == p[1..][i - 1];
      if r < 0 then -1 else r + 1
  }

  lemma KeyIndexIs(p: Params, k: string, j: nat)
    requires j < |p| && p[j].0 == k && forall i :: 0 <= i < j ==> p[i].0 != k
    ensures KeyIndex(p, k) == j
  {
    assert HasKey(p, k);
  }

  /** HeaderParams.Get. */
  function Get(p: Params, k: string): (r: Option<string>)
    ensures r.Some? <==> HasKey(p, k)
    ensures r.Some? ==> exists i :: 0 <= i < |p| && p[i] == (k, r.value)
  {
    var i := KeyIndex(p, k);
    if i < 0 then None else Some(p[i].1)
  }

  /** HeaderParams.Add, i.e. `params[k] = v`: replace in place, or append. */
  function Add(p: Params, k: string, v: string): (r: Params)
    ensures |r| == if HasKey(p, k) then |p| else |p| + 1
    ensures !HasKey(p, k) ==> r == p + [(k, v)]
  {
    var i := KeyIndex(p, k);
    if i < 0 then p + [(k, v)] else p[i := (k, v)]
  }

  /** After Add(p, k, v), `k` maps to `v` and every other key is unchanged. */
  lemma AddThenGet(p: Params, k: string, v: string, k': string)
    ensures Get(Add(p, k, v), k) == Some(v)
    ensures k' != k ==> Get(Add(p, k, v), k') == Get(p, k')
  {
    var r := Add(p, k, v);
    var i := KeyIndex(p, k);
    if i < 0 {
      assert r[|p|] == (k, v);
      KeyIndexIs(r, k, |p|);
      if k' != k {
        var j := KeyIndex(p, k');
        assert HasKey(r, k') ==> HasKey(p, k');
        if j >= 0 { KeyIndexIs(r, k', j); }
      }
    } else {
      KeyIndexIs(r, k, i);
      if k' != k {
        var j := KeyIndex(p, k');
        assert forall m :: 0 <= m < |p| ==> (r[m].0 == k' <==> p[m].0 == k');
        assert HasKey(r, k') <==> HasKey(p, k');
        if j >= 0 { KeyIndexIs(r, k', j); }
      }
    }
  }

  /** Add keeps the keys unique. */
  lemma AddKeepsUnique(p: Params, k: string, v: string)
    requires UniqueKeys(p)
    ensures UniqueKeys(Add(p, k, v))
  {
    var r := Add(p, k, v);
    var i := KeyIndex(p, k);
    if i >= 0 {
      assert forall m :: 0 <= m < |p| ==> r[m].0 == p[m].0;
    }
  }

  /** The pieces of `s` between occurrences of `sep`. */
  function SplitOn(s: string, sep: char): (parts: seq<string>)
    ensures |parts| >= 1
    decreases |s|
  {
    var k := Text.IndexOf(s, sep);
    if k < 0 then [s] else [s[..k]] + SplitOn(s[k + 1..], sep)
  }

  /** `key=value`, or a bare `key` with an empty value. */
  function PairOf(seg: string): (string, string) {
    var e := Text.IndexOf(seg, '=');
    if e < 0 then (seg, "") else (seg[..e], seg[e + 1..])
  }

  function AddAll(p: Params, segs: seq<string>): Params
    decreases |segs|
  {
    if |segs| == 0 then p
    else
      var kv := PairOf(segs[0]);
      AddAll(if segs[0] == "" then p else Add(p, kv.0, kv.1), segs[1..])
  }

  /** What UnmarshalParams(s, sep, end, p) returns: how far it read, and the
      parameters with every `sep`-separated `key=value` before the first
      `end` added. The decoder's own source is not part of this model; this
      stand-in never fails. */
  datatype Decoded = Decoded(consumed: nat, params: Params)

  function Unmarshal(s: string, sep: char, end: char, p: Params): (d: Decoded)
    ensures d.consumed <= |s|
    ensures d.consumed < |s| ==> s[d.consumed] == end
    ensures end !in s[..d.consumed]
  {
    var k := Text.IndexOf(s, end);
    var n := if k < 0 then |s| else k;
    assert k < 0 ==> s[..n] == s;
    Decoded(n, AddAll(p, SplitOn(s[..n], sep)))
  }

  /** A single `key=value` followed by the end character (or by nothing)
      decodes to that one pair, and the decoder stops at the end character. */
  lemma UnmarshalSingle(k: string, v: string, tail: string, sep: char, end: char)
    requires k != "" && '=' !in k
    requires sep !in k && sep !in v && end !in k && end !in v && sep != '=' && end != '='
    requires tail == [] || tail[0] == end
    ensures Unmarshal(k + "=" + v + tail, sep, end, []) == Decoded(|k| + 1 + |v|, [(k, v)])
  {
    var kv := k + "=" + v;
    var s := kv + tail;
    assert s[..|kv|] == kv;
    assert end !in kv;
    if tail == [] {
      assert s == kv;
      assert Text.IndexOf(s, end) == -1;
    } else {
      assert s[|kv|] == end;
      assert Text.IndexOf(s, end) == |kv|;
    }
    assert sep !in kv;
    assert SplitOn(kv, sep) == [kv];
    assert Text.IndexOf(kv, '=') == |k| by {
      assert kv[|k|] == '=';
      assert kv[..|k|] == k;
    }
    assert kv[..|k|] == k && kv[|k| + 1..] == v;
    assert PairOf(kv) == (k, v);
    assert !HasKey([], k);
    assert AddAll([], [kv]) == AddAll(Add([], k, v), []) == [(k, v)];
  }
}
