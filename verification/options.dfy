/**
 * The saved option mapping (`bpext_options`), as the plugin's `foreach`
 * sees it: a sequence of key/value pairs in storage order. A PHP array
 * never holds a key twice; `DistinctKeys` states that where it matters.
 */
module Options {
  import opened Wrappers

  type OptionPairs = seq<(string, string)>

  /** The value a checkbox option holds when it is ticked. */
  const ON := "on"

  predicate DistinctKeys(opts: OptionPairs) {
    forall i, j :: 0 <= i < j < |opts| ==> opts[i].0 != opts[j].0
  }

  predicate HasKey(opts: OptionPairs, key: string) {
    exists i :: 0 <= i < |opts| && opts[i].0 == key
  }

  /** `$options[$key]` when `isset`: the value stored under `key`, if any. */
  function Lookup(opts: OptionPairs, key: string): (r: Option<string>)
    ensures r.None? <==> !HasKey(opts, key)
    ensures r.Some? ==> (key, r.value) in opts
    ensures DistinctKeys(opts) ==> forall v :: (key, v) in opts ==> r == Some(v)
  {
    if opts == [] then None
    else if opts[0].0 == key then Some(opts[0].1)
    else
      var r := Lookup(opts[1..], key);
      assert forall i :: 0 < i < |opts| ==> opts[i] == opts[1..][i - 1];
      assert DistinctKeys(opts) ==> DistinctKeys(opts[1..]);
      r
  }

  /** The option pairs read as a finite map, the later pair winning on a repeated key. */
  function ToMap(opts: OptionPairs): map<string, string> {
    if opts == [] then map[] else ToMap(opts[..|opts| - 1])[opts[|opts| - 1].0 := opts[|opts| - 1].1]
  }

  /** With distinct keys, the map holds exactly the pairs of the sequence. */
  lemma {:induction false} ToMapHoldsPairs(opts: OptionPairs)
    requires DistinctKeys(opts)
    ensures forall i :: 0 <= i < |opts| ==> opts[i].0 in ToMap(opts) && ToMap(opts)[opts[i].0] == opts[i].1
    ensures forall k :: k in ToMap(opts) ==> (k, ToMap(opts)[k]) in opts
  {
    if opts != [] {
      var init := opts[..|opts| - 1];
      assert DistinctKeys(init);
      ToMapHoldsPairs(init);
      forall i | 0 <= i < |init|
        ensures init[i] == opts[i] && init[i].0 != opts[|opts| - 1].0
      {}
      forall k | k in ToMap(opts)
        ensures (k, ToMap(opts)[k]) in opts
      {
        if k != opts[|opts| - 1].0 {
          assert k in ToMap(init) && ToMap(opts)[k] == ToMap(init)[k];
          assert (k, ToMap(init)[k]) in init;
          var i :| 0 <= i < |init| && init[i] == (k, ToMap(init)[k]);
          assert opts[i] == init[i];
        }
      }
    }
  }

  /** With distinct keys, a key is stored with one value only. */
  lemma PairUnique(opts: OptionPairs, key: string, v: string, w: string)
    requires DistinctKeys(opts) && (key, v) in opts && (key, w) in opts
    ensures v == w
  {
    var i :| 0 <= i < |opts| && opts[i] == (key, v);
    var j :| 0 <= j < |opts| && opts[j] == (key, w);
    assert !(i < j) && !(j < i);
  }

  /** The last pair's key is new to the map of the pairs before it. */
  lemma LastKeyFresh(opts: OptionPairs)
    requires DistinctKeys(opts) && opts != []
    ensures DistinctKeys(opts[..|opts| - 1])
    ensures opts[|opts| - 1].0 !in ToMap(opts[..|opts| - 1])
    ensures ToMap(opts) == ToMap(opts[..|opts| - 1])[opts[|opts| - 1].0 := opts[|opts| - 1].1]
  {
    var init, last := opts[..|opts| - 1], opts[|opts| - 1];
    assert DistinctKeys(init);
    ToMapHoldsPairs(init);
    forall p | p in init
      ensures p.0 != last.0
    {
      var i :| 0 <= i < |init| && init[i] == p;
      assert opts[i] == p;
    }
  }

  /**
   * Two option sequences that hold the same pairs in any order, each with
   * distinct keys, read as the same map.
   */
  lemma SamePairsSameMap(o1: OptionPairs, o2: OptionPairs)
    requires DistinctKeys(o1) && DistinctKeys(o2)
    requires multiset(o1) == multiset(o2)
    ensures ToMap(o1) == ToMap(o2)
  {
    ToMapHoldsPairs(o1);
    ToMapHoldsPairs(o2);
    forall k | k in ToMap(o1)
      ensures k in ToMap(o2) && ToMap(o2)[k] == ToMap(o1)[k]
    {
      var p := (k, ToMap(o1)[k]);
      assert p in multiset(o1);
      assert p in o2;
    }
    forall k | k in ToMap(o2)
      ensures k in ToMap(o1)
    {
      var p := (k, ToMap(o2)[k]);
      assert p in multiset(o2);
      assert p in o1;
    }
  }
}
