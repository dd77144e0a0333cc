/** The poetry data clean-up script (dedupPoetry.js): each list of couplet
    pairs loses the pairs on the exclusion list and its repeated pairs, and
    then the easy, normal and hard lists are made disjoint through one shared
    set of keys, earlier lists keeping a pair they share with later ones. */
module DedupPoetry {
  import opened Common

  /** A couplet pair: the first line and the line that answers it. */
  type Pair = (string, string)

  /** `key(p)`: the two lines joined by '|'. */
  function Key(p: Pair): string
  {
    p.0 + "|" + p.1
  }

  /** `EXCLUDED`: pairs left out of every list. */
  const Excluded: set<string> := {
    "床前明月光|疑是地上霜", "春眠不觉晓|处处闻啼鸟", "举头望明月|低头思故乡",
    "白日依山尽|黄河入海流", "春风又绿江南岸|明月何时照我还",
    "两个黄鹂鸣翠柳|一行白鹭上青天", "独在异乡为异客|每逢佳节倍思亲",
    "千山鸟飞绝|万径人踪灭", "长安一片月|万户捣衣声",
    "日暮乡关何处是|烟波江上使人愁", "怀君属秋夜|散步咏凉天",
    "嗟余听鼓应官去|走马兰台类转蓬", "洛阳亲友如相问|一片冰心在玉壶",
    "海内存知己|天涯若比邻", "莫愁前路无知己|天下谁人不识君",
    "桃花潭水深千尺|不及汪伦送我情"
  }

  /** The keys of a list of pairs. */
  function KeysOf(s: seq<Pair>): set<string>
  {
    set i | 0 <= i < |s| :: Key(s[i])
  }

  lemma KeysOfAppend(s: seq<Pair>, x: Pair)
    ensures KeysOf(s + [x]) == KeysOf(s) + {Key(x)}
  {
    var t := s + [x];
    assert forall i :: 0 <= i < |s| ==> t[i] == s[i];
    assert t[|s|] == x;
  }

  /** The pairs of `arr` whose key is not blocked, in order, each key once. */
  function Filter(arr: seq<Pair>, blocked: set<string>): seq<Pair>
  {
    if arr == [] then []
    else
      var prev := Filter(arr[..|arr| - 1], blocked);
      var x := arr[|arr| - 1];
      if Key(x) !in blocked && Key(x) !in KeysOf(prev) then prev + [x] else prev
  }

  /** No key of the result is blocked, no key is repeated, and every key of the
      input that is not blocked is kept. */
  lemma {:induction false} FilterKeys(arr: seq<Pair>, blocked: set<string>)
    ensures forall k :: 0 <= k < |Filter(arr, blocked)| ==> Key(Filter(arr, blocked)[k]) !in blocked
    ensures forall i, j :: 0 <= i < j < |Filter(arr, blocked)| ==>
              Key(Filter(arr, blocked)[i]) != Key(Filter(arr, blocked)[j])
    ensures KeysOf(Filter(arr, blocked)) == KeysOf(arr) - blocked
    ensures |Filter(arr, blocked)| <= |arr|
  {
    if arr != [] {
      var pre := arr[..|arr| - 1];
      var x := arr[|arr| - 1];
      var prev := Filter(pre, blocked);
      FilterKeys(pre, blocked);
      assert arr == pre + [x];
      KeysOfAppend(pre, x);
      if Key(x) !in blocked && Key(x) !in KeysOf(prev) {
        KeysOfAppend(prev, x);
        var out := prev + [x];
        forall i, j | 0 <= i < j < |out|
          ensures Key(out[i]) != Key(out[j])
        {
          if j == |prev| {
            assert Key(out[i]) in KeysOf(prev);
          }
        }
      }
    }
  }

  /** Index `i` holds the first occurrence of a key that is not blocked. */
  predicate FirstUnblocked(arr: seq<Pair>, blocked: set<string>, i: int)
    requires 0 <= i < |arr|
  {
    Key(arr[i]) !in blocked && forall j :: 0 <= j < i ==> Key(arr[j]) != Key(arr[i])
  }

  /** The result is `arr` at exactly the first occurrences of its unblocked
      keys, in increasing order: an order-preserving subsequence. */
  lemma {:induction false} FilterKeepsFirstOccurrences(arr: seq<Pair>, blocked: set<string>) returns (idx: seq<nat>)
    ensures |idx| == |Filter(arr, blocked)|
    ensures forall k :: 0 <= k < |idx| ==> idx[k] < |arr| && Filter(arr, blocked)[k] == arr[idx[k]]
    ensures forall k, l :: 0 <= k < l < |idx| ==> idx[k] < idx[l]
    ensures forall i :: 0 <= i < |arr| ==> (i in idx <==> FirstUnblocked(arr, blocked, i))
  {
    if arr == [] {
      return [];
    }
    var n := |arr| - 1;
    var pre := arr[..n];
    var idx' := FilterKeepsFirstOccurrences(pre, blocked);
    FirstUnblockedInPrefix(arr, blocked);
    LastKeptIffFirst(arr, blocked);
    assert forall k :: 0 <= k < |idx'| ==> arr[idx'[k]] == pre[idx'[k]];
    idx := ExtendIndices(arr, blocked, Filter(pre, blocked), idx');
  }

  /** One more position: the index list grows by the last position exactly
      when the last pair is kept. */
  lemma ExtendIndices(arr: seq<Pair>, blocked: set<string>, prev: seq<Pair>, idx': seq<nat>) returns (idx: seq<nat>)
    requires arr != [] && |idx'| == |prev|
    requires forall k :: 0 <= k < |idx'| ==> idx'[k] < |arr| - 1 && prev[k] == arr[idx'[k]]
    requires forall k, l :: 0 <= k < l < |idx'| ==> idx'[k] < idx'[l]
    requires forall i :: 0 <= i < |arr| - 1 ==> (i in idx' <==> FirstUnblocked(arr, blocked, i))
    ensures var out := if FirstUnblocked(arr, blocked, |arr| - 1) then prev + [arr[|arr| - 1]] else prev;
            && |idx| == |out|
            && (forall k :: 0 <= k < |idx| ==> idx[k] < |arr| && out[k] == arr[idx[k]])
            && (forall k, l :: 0 <= k < l < |idx| ==> idx[k] < idx[l])
            && (forall i :: 0 <= i < |arr| ==> (i in idx <==> FirstUnblocked(arr, blocked, i)))
  {
    var n := |arr| - 1;
    if FirstUnblocked(arr, blocked, n) {
      idx := idx' + [n];
      assert forall i :: 0 <= i < n ==> (i in idx <==> i in idx');
    } else {
      idx := idx';
    }
  }

  /** Before the last position, being a first unblocked occurrence does not
      depend on the last pair. */
  lemma FirstUnblockedInPrefix(arr: seq<Pair>, blocked: set<string>)
    requires arr != []
    ensures forall i :: 0 <= i < |arr| - 1 ==>
              (FirstUnblocked(arr, blocked, i) <==> FirstUnblocked(arr[..|arr| - 1], blocked, i))
  {
    var pre := arr[..|arr| - 1];
    assert forall i :: 0 <= i < |pre| ==> arr[i] == pre[i];
  }

  /** The last pair is kept exactly when it is the first unblocked occurrence
      of its key. */
  lemma LastKeptIffFirst(arr: seq<Pair>, blocked: set<string>)
    requires arr != []
    ensures var n := |arr| - 1;
            (Key(arr[n]) !in blocked && Key(arr[n]) !in KeysOf(Filter(arr[..n], blocked)))
            <==> FirstUnblocked(arr, blocked, n)
  {
    var n := |arr| - 1;
    var pre := arr[..n];
    FilterKeys(pre, blocked);
    assert forall j :: 0 <= j < n ==> arr[j] == pre[j] && Key(pre[j]) in KeysOf(pre);
  }

  /** `dedup(arr)`: drop excluded pairs and repeats, keeping first occurrences. */
  method Dedup(arr: seq<Pair>) returns (out: seq<Pair>)
    ensures out == Filter(arr, Excluded)
    ensures forall k :: 0 <= k < |out| ==> Key(out[k]) !in Excluded
    ensures forall i, j :: 0 <= i < j < |out| ==> Key(out[i]) != Key(out[j])
    ensures KeysOf(out) == KeysOf(arr) - Excluded
    ensures |out| <= |arr|
  {
    var seen: set<string> := {};
    out := [];
    var i := 0;
    while i < |arr|
      invariant 0 <= i <= |arr|
      invariant out == Filter(arr[..i], Excluded)
      invariant seen == KeysOf(out)
    {
      var k := Key(arr[i]);
      assert arr[..i + 1][..i] == arr[..i];
      if k !in Excluded && k !in seen {
        KeysOfAppend(out, arr[i]);
        seen := seen + {k};
        out := out + [arr[i]];
      }
      i := i + 1;
    }
    assert arr[..i] == arr;
    FilterKeys(arr, Excluded);
  }

  /** A JavaScript `Set` of keys, shared between calls. */
  class KeySet {
    var keys: set<string>

    constructor ()
      ensures keys == {}
    {
      keys := {};
    }
  }

  /** `dedupCross(arr, otherSeen)`: keep the pairs whose key the shared set does
      not hold yet, adding each kept key to it. */
  method DedupCross(arr: seq<Pair>, otherSeen: KeySet) returns (out: seq<Pair>)
    modifies otherSeen
    ensures out == Filter(arr, old(otherSeen.keys))
    ensures otherSeen.keys == old(otherSeen.keys) + KeysOf(out)
  {
    ghost var start := otherSeen.keys;
    out := [];
    var i := 0;
    while i < |arr|
      invariant 0 <= i <= |arr|
      invariant out == Filter(arr[..i], start)
      invariant otherSeen.keys == start + KeysOf(out)
    {
      var k := Key(arr[i]);
      assert arr[..i + 1][..i] == arr[..i];
      FilterKeys(arr[..i], start);
      if k !in otherSeen.keys {
        KeysOfAppend(out, arr[i]);
        otherSeen.keys := otherSeen.keys + {k};
        out := out + [arr[i]];
      }
      i := i + 1;
    }
    assert arr[..i] == arr;
  }

  /** The whole script: dedup the three lists, then make them disjoint through
      one shared set. No key is excluded or repeated, the lists share no key,
      an earlier list keeps every key it had, and a later list loses exactly
      the keys an earlier one holds. */
  method DedupAll(easy: seq<Pair>, normal: seq<Pair>, hard: seq<Pair>) returns (e: seq<Pair>, n: seq<Pair>, h: seq<Pair>)
    ensures KeysOf(e) !! KeysOf(n) && KeysOf(e) !! KeysOf(h) && KeysOf(n) !! KeysOf(h)
    ensures KeysOf(e) == KeysOf(easy) - Excluded
    ensures KeysOf(n) == KeysOf(normal) - Excluded - KeysOf(e)
    ensures KeysOf(h) == KeysOf(hard) - Excluded - KeysOf(e) - KeysOf(n)
    ensures forall i, j :: 0 <= i < j < |e| ==> Key(e[i]) != Key(e[j])
    ensures forall i, j :: 0 <= i < j < |n| ==> Key(n[i]) != Key(n[j])
    ensures forall i, j :: 0 <= i < j < |h| ==> Key(h[i]) != Key(h[j])
    ensures |e| <= |easy| && |n| <= |normal| && |h| <= |hard|
  {
    var e0 := Dedup(easy);
    var n0 := Dedup(normal);
    var h0 := Dedup(hard);
    var allSeen := new KeySet();
    e := DedupCross(e0, allSeen);
    FilterKeySet(e0, {});
    FilterKeys(e0, {});
    assert KeysOf(e) == KeysOf(e0) && allSeen.keys == KeysOf(e);
    n := DedupCross(n0, allSeen);
    FilterKeySet(n0, KeysOf(e));
    FilterKeys(n0, KeysOf(e));
    assert allSeen.keys == KeysOf(e) + KeysOf(n);
    h := DedupCross(h0, allSeen);
    FilterKeySet(h0, KeysOf(e) + KeysOf(n));
    FilterKeys(h0, KeysOf(e) + KeysOf(n));
    Staggered(KeysOf(e0), KeysOf(n0), KeysOf(h0), KeysOf(e), KeysOf(n), KeysOf(h));
  }

  lemma Staggered(e0: set<string>, n0: set<string>, h0: set<string>, e: set<string>, n: set<string>, h: set<string>)
    requires e == e0 && n == n0 - e && h == h0 - (e + n)
    ensures e !! n && e !! h && n !! h
  {
  }

  /** The key set of a filtered list, and its length. */
  lemma FilterKeySet(arr: seq<Pair>, blocked: set<string>)
    ensures KeysOf(Filter(arr, blocked)) == KeysOf(arr) - blocked
    ensures |Filter(arr, blocked)| <= |arr|
  {
    FilterKeys(arr, blocked);
  }
}
