/**
 * The multimap behind configuration files and HTTP header collections: keys may repeat, and the
 * values stored under one key keep the order in which they were inserted. It is modelled as the
 * sequence of its key/value entries; only the operations the core uses are given.
 */
module OptionalMap {

  type Entry = (string, string)

  /** The values stored under `key`, in order (the multimap's equal range). */
  function Range(m: seq<Entry>, key: string): (vs: seq<string>)
    ensures |vs| <= |m|
    decreases |m|
  {
    if m == [] then []
    else
      var last := m[|m| - 1];
      Range(m[..|m| - 1], key) + (if last.0 == key then [last.1] else [])
  }

  /** The equal range holds exactly the values of the entries whose key is `key`. */
  lemma {:induction false} RangeMembers(m: seq<Entry>, key: string, v: string)
    ensures v in Range(m, key) <==> exists i :: 0 <= i < |m| && m[i] == (key, v)
    decreases |m|
  {
    if m != [] {
      var init := m[..|m| - 1];
      RangeMembers(init, key, v);
      assert forall i :: 0 <= i < |init| ==> init[i] == m[i];
      if exists i :: 0 <= i < |m| && m[i] == (key, v) {
        var i :| 0 <= i < |m| && m[i] == (key, v);
        if i < |init| {
          assert init[i] == (key, v);
        }
      }
    }
  }

  /** The first value stored under `key`, or the empty string when there is none. */
  function Get(m: seq<Entry>, key: string): (v: string)
    ensures (forall i :: 0 <= i < |m| ==> m[i].0 != key) ==> v == ""
    ensures forall i :: 0 <= i < |m| && m[i].0 == key && (forall j :: 0 <= j < i ==> m[j].0 != key) ==> v == m[i].1
  {
    if m == [] then ""
    else if m[0].0 == key then m[0].1
    else
      assert forall i :: 1 <= i < |m| ==> m[1..][i - 1] == m[i];
      Get(m[1..], key)
  }

  /** Inserts a value under `key`, after the values already stored under it. */
  function Append(m: seq<Entry>, key: string, value: string): (m': seq<Entry>)
    ensures |m'| == |m| + 1 && m'[..|m|] == m && m'[|m|] == (key, value)
    ensures Range(m', key) == Range(m, key) + [value]
    ensures forall k :: k != key ==> Range(m', k) == Range(m, k)
  {
    var m' := m + [(key, value)];
    assert m'[..|m|] == m;
    m'
  }

  /** The equal range of a concatenation is the concatenation of the equal ranges. */
  lemma {:induction false} RangeConcat(a: seq<Entry>, b: seq<Entry>, key: string)
    ensures Range(a + b, key) == Range(a, key) + Range(b, key)
    decreases |b|
  {
    if b == [] {
      assert a + b == a;
    } else {
      var b' := b[..|b| - 1];
      assert (a + b)[..|a + b| - 1] == a + b';
      RangeConcat(a, b', key);
    }
  }

  /** `Get` is the head of the equal range, and the empty string when the range is empty. */
  lemma {:induction false} GetIsFirstOfRange(m: seq<Entry>, key: string)
    ensures Get(m, key) == if Range(m, key) == [] then "" else Range(m, key)[0]
    decreases |m|
  {
    if m != [] {
      assert m == [m[0]] + m[1..];
      RangeConcat([m[0]], m[1..], key);
      assert Range([m[0]], key) == if m[0].0 == key then [m[0].1] else [] by {
        assert [m[0]][..0] == [];
      }
      GetIsFirstOfRange(m[1..], key);
    }
  }
}
