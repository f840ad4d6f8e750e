/**
 * The bar chart of one metric: for each production line, the value stored
 * under its latest date key (the greatest key in string order) against the
 * metric's target.
 */
module MetricChart {
  import opened Common
  import opened Config

  /** The order of JavaScript's default `sort` on strings: character by character, a prefix first. */
  predicate LexLe(a: string, b: string)
    decreases |a|
  {
    if a == [] then true
    else if b == [] then false
    else if a[0] != b[0] then a[0] < b[0]
    else LexLe(a[1..], b[1..])
  }

  lemma {:induction false} LexReflexive(a: string)
    ensures LexLe(a, a)
    decreases |a|
  {
    if a != [] {
      LexReflexive(a[1..]);
    }
  }

  lemma {:induction false} LexTotal(a: string, b: string)
    ensures LexLe(a, b) || LexLe(b, a)
    decreases |a|
  {
    if a != [] && b != [] && a[0] == b[0] {
      LexTotal(a[1..], b[1..]);
    }
  }

  lemma {:induction false} LexTransitive(a: string, b: string, c: string)
    requires LexLe(a, b) && LexLe(b, c)
    ensures LexLe(a, c)
    decreases |a|
  {
    if a != [] && b != [] && c != [] && a[0] == b[0] && b[0] == c[0] {
      LexTransitive(a[1..], b[1..], c[1..]);
    }
  }

  lemma {:induction false} LexAntisymmetric(a: string, b: string)
    requires LexLe(a, b) && LexLe(b, a)
    ensures a == b
    decreases |a|
  {
    if a != [] && b != [] {
      LexAntisymmetric(a[1..], b[1..]);
      assert a == [a[0]] + a[1..] && b == [b[0]] + b[1..];
    }
  }

  /** The last key after sorting: a key that every key precedes or equals. */
  function MaxKey(keys: seq<string>): (k: string)
    requires keys != []
    ensures k in keys
    ensures forall i :: 0 <= i < |keys| ==> LexLe(keys[i], k)
  {
    if |keys| == 1 then
      LexReflexive(keys[0]);
      keys[0]
    else
      var rest := MaxKey(keys[1..]);
      LexTotal(keys[0], rest);
      if LexLe(keys[0], rest) then
        assert forall i :: 1 <= i < |keys| ==> keys[i] == keys[1..][i - 1];
        rest
      else
        assert forall i :: 0 <= i < |keys| ==> LexLe(keys[i], keys[0]) by {
          forall i | 0 <= i < |keys|
            ensures LexLe(keys[i], keys[0])
          {
            if i == 0 {
              LexReflexive(keys[0]);
            } else {
              assert keys[i] == keys[1..][i - 1];
              LexTransitive(keys[i], rest, keys[0]);
            }
          }
        }
        keys[0]
  }

  /** The greatest key is the only one every key precedes: sorting then `pop` picks it whatever the key order. */
  lemma MaxKeyUnique(keys: seq<string>, k: string)
    requires keys != [] && k in keys
    requires forall i :: 0 <= i < |keys| ==> LexLe(keys[i], k)
    ensures k == MaxKey(keys)
  {
    var m := MaxKey(keys);
    var i :| 0 <= i < |keys| && keys[i] == m;
    LexAntisymmetric(k, m);
  }

  /** The date keys of a line's values, in entry order. */
  function Keys(values: seq<(string, real)>): (keys: seq<string>)
    ensures |keys| == |values| && forall i :: 0 <= i < |values| ==> keys[i] == values[i].0
  {
    seq(|values|, i requires 0 <= i < |values| => values[i].0)
  }

  /**
   * `values[latestDate] || 0`: the value stored under the greatest date key,
   * and 0 for a line without dates.
   */
  function LatestValue(values: seq<(string, real)>): (v: real)
    ensures values == [] ==> v == 0.0
    ensures values != [] ==>
      exists i :: 0 <= i < |values| && v == values[i].1 &&
        (forall j :: 0 <= j < |values| ==> LexLe(values[j].0, values[i].0))
  {
    if values == [] then 0.0
    else
      var keys := Keys(values);
      var i := FirstIndex(keys, MaxKey(keys));
      values[i].1
  }

  /** One bar of the chart. */
  datatype ChartEntry = ChartEntry(name: string, valor: real, meta: real)

  /** `chartData`: one entry per line, in entry order, against the metric's target. */
  function ChartData(metric: KPIMetric, data: seq<(string, seq<(string, real)>)>): (entries: seq<ChartEntry>)
    ensures |entries| == |data|
    ensures forall i :: 0 <= i < |data| ==>
      entries[i].name == data[i].0 && entries[i].meta == metric.target &&
      entries[i].valor == LatestValue(data[i].1)
  {
    seq(|data|, i requires 0 <= i < |data| => ChartEntry(data[i].0, LatestValue(data[i].1), metric.target))
  }
}
