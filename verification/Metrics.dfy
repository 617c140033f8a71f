/** The metric table of src/delta.c: an array of (path, value) pairs searched from the front,
    grown by doubling. */
module Metrics {
  import opened Wrappers

  const PATH_SIZE := 256

  datatype Metric = Metric(path: string, value: int)

  /** copy_truncated() into a buffer of `size` bytes. */
  function Truncate(s: string, size: nat): string
    requires size > 0
  {
    if |s| >= size then s[..size - 1] else s
  }

  // ----- the table as a sequence ---------------------------------------------------------------

  function Get(items: seq<Metric>, path: string): (r: Option<int>)
  {
    if items == [] then None
    else if items[0].path == path then Some(items[0].value)
    else Get(items[1..], path)
  }

  function Set(items: seq<Metric>, path: string, value: int): (r: seq<Metric>)
    ensures |items| <= |r| <= |items| + 1
  {
    if items == [] then [Metric(Truncate(path, PATH_SIZE), value)]
    else if items[0].path == path then [Metric(path, value)] + items[1..]
    else [items[0]] + Set(items[1..], path, value)
  }

  /** No path occurs twice. */
  predicate Distinct(items: seq<Metric>) {
    forall i, j :: 0 <= i < j < |items| ==> items[i].path != items[j].path
  }

  ghost predicate Has(items: seq<Metric>, path: string) {
    exists i :: 0 <= i < |items| && items[i].path == path
  }

  // Set is map update ...
  lemma {:induction false} GetSet(items: seq<Metric>, path: string, value: int, other: string)
    requires |path| < PATH_SIZE
    ensures Get(Set(items, path, value), other) == if other == path then Some(value) else Get(items, other)
  {
    if items != [] && items[0].path != path {
      GetSet(items[1..], path, value, other);
    }
  }

  lemma {:induction false} SetPaths(items: seq<Metric>, path: string, value: int)
    requires |path| < PATH_SIZE
    ensures forall m :: m in Set(items, path, value) ==> m == Metric(path, value) || m in items
  {
    if items != [] && items[0].path != path {
      SetPaths(items[1..], path, value);
      assert items == [items[0]] + items[1..];
    }
  }

  // ... and keeps the keys unique.
  lemma {:induction false} SetDistinct(items: seq<Metric>, path: string, value: int)
    requires |path| < PATH_SIZE && Distinct(items)
    ensures Distinct(Set(items, path, value))
  {
    if items != [] && items[0].path != path {
      SetDistinct(items[1..], path, value);
      SetPaths(items[1..], path, value);
      var r := Set(items[1..], path, value);
      forall j | 0 <= j < |r| ensures r[j].path != items[0].path {
        assert r[j] in r;
        if r[j] in items[1..] {
          var k :| 0 <= k < |items[1..]| && items[1..][k] == r[j];
          assert items[k + 1] == r[j];
        }
      }
    }
  }

  lemma {:induction false} GetHas(items: seq<Metric>, path: string)
    ensures Get(items, path).Some? <==> Has(items, path)
    ensures Get(items, path).Some? ==> Metric(path, Get(items, path).value) in items
  {
    if items != [] {
      assert items == [items[0]] + items[1..];
      if items[0].path != path {
        GetHas(items[1..], path);
        if Has(items, path) {
          var i :| 0 <= i < |items| && items[i].path == path;
          assert items[1..][i - 1].path == path;
        }
        if Has(items[1..], path) {
          var i :| 0 <= i < |items[1..]| && items[1..][i].path == path;
          assert items[i + 1].path == path;
        }
      }
    }
  }

  lemma DistinctHead(items: seq<Metric>)
    requires Distinct(items) && items != []
    ensures Distinct(items[1..]) && forall x :: x in items[1..] ==> x.path != items[0].path
  {
    forall x | x in items[1..] ensures x.path != items[0].path {
      var k :| 0 <= k < |items[1..]| && items[1..][k] == x;
      assert items[k + 1] == x;
    }
  }

  lemma {:induction false} GetAt(items: seq<Metric>, i: nat)
    requires Distinct(items) && i < |items|
    ensures Get(items, items[i].path) == Some(items[i].value)
  {
    if i > 0 {
      assert items[1..][i - 1] == items[i];
      GetAt(items[1..], i - 1);
    }
  }

  /** Adding a new path at the end leaves what was found before, and is found. */
  lemma {:induction false} SetAppends(items: seq<Metric>, path: string, value: int)
    requires !Has(items, path)
    ensures Set(items, path, value) == items + [Metric(Truncate(path, PATH_SIZE), value)]
  {
    if items != [] {
      assert items[0].path != path;
      SetAppends(items[1..], path, value);
    }
  }

  lemma {:induction false} SetReplaces(items: seq<Metric>, path: string, value: int, i: nat)
    requires i < |items| && items[i].path == path
    requires forall k :: 0 <= k < i ==> items[k].path != path
    ensures Set(items, path, value) == items[i := Metric(path, value)]
  {
    if i > 0 {
      SetReplaces(items[1..], path, value, i - 1);
    }
  }

  // ----- a part of a table ---------------------------------------------------------------------

  /** Some of the metrics, in any order. */
  predicate IsPart(part: seq<Metric>, all: seq<Metric>) {
    Distinct(part) && forall m :: m in part ==> m in all
  }

  lemma {:induction false} SetHolds(items: seq<Metric>, path: string, value: int)
    requires |path| < PATH_SIZE
    ensures Metric(path, value) in Set(items, path, value)
    ensures forall m :: m in items && m.path != path ==> m in Set(items, path, value)
  {
    if items != [] {
      assert items == [items[0]] + items[1..];
      if items[0].path != path {
        SetHolds(items[1..], path, value);
      }
    }
  }

  lemma {:induction false} SetLength(items: seq<Metric>, path: string, value: int)
    ensures |Set(items, path, value)| == |items| + if Has(items, path) then 0 else 1
  {
    if items != [] && items[0].path != path {
      SetLength(items[1..], path, value);
      assert Has(items[1..], path) <==> Has(items, path) by {
        GetHas(items, path);
        GetHas(items[1..], path);
      }
    }
  }

  /** What a metric of the updated table is. */
  lemma SetOnly(items: seq<Metric>, path: string, value: int, m: Metric)
    requires |path| < PATH_SIZE && Distinct(items) && m in Set(items, path, value)
    ensures m == Metric(path, value) || (m in items && m.path != path)
  {
    SetPaths(items, path, value);
    SetDistinct(items, path, value);
    SetHolds(items, path, value);
  }

  /** Updating both keeps a part a part; so does updating the whole, for a path the part lacks. */
  lemma PartSet(part: seq<Metric>, all: seq<Metric>, path: string, value: int)
    requires |path| < PATH_SIZE && IsPart(part, all)
    ensures IsPart(Set(part, path, value), Set(all, path, value))
    ensures !Has(part, path) ==> IsPart(part, Set(all, path, value))
  {
    SetHolds(all, path, value);
    SetDistinct(part, path, value);
    forall m | m in Set(part, path, value) ensures m in Set(all, path, value) {
      SetOnly(part, path, value, m);
    }
    if !Has(part, path) {
      forall m | m in part ensures m in Set(all, path, value) {
        var i :| 0 <= i < |part| && part[i] == m;
        assert part[i].path != path;
      }
    }
  }

  /** Storing the metrics one after the other gives their prefixes. */
  lemma PrefixSet(metrics: seq<Metric>, i: nat)
    requires Distinct(metrics) && i < |metrics| && forall m :: m in metrics ==> |m.path| < PATH_SIZE
    ensures !Has(metrics[..i], metrics[i].path)
    ensures Set(metrics[..i], metrics[i].path, metrics[i].value) == metrics[..i + 1]
  {
    assert metrics[i] in metrics;
    SetAppends(metrics[..i], metrics[i].path, metrics[i].value);
    assert metrics[..i + 1] == metrics[..i] + [metrics[i]];
  }

  // ----- the table in place --------------------------------------------------------------------

  lemma {:induction false} GetByIndex(items: seq<Metric>, path: string, i: nat)
    requires i <= |items|
    requires i < |items| ==> items[i].path == path
    requires forall k :: 0 <= k < i ==> items[k].path != path
    ensures Get(items, path) == if i < |items| then Some(items[i].value) else None
  {
    if i > 0 {
      GetByIndex(items[1..], path, i - 1);
    }
  }

  /** The capacity after a growth. */
  function Doubled(capacity: nat): (r: nat)
    ensures r > capacity
  {
    if capacity == 0 then 16 else 2 * capacity
  }

  /** The capacity after so many growths. */
  function Grown(capacity: nat, growths: nat): (r: nat)
    ensures r >= capacity
    decreases growths
  {
    if growths == 0 then capacity else Grown(Doubled(capacity), growths - 1)
  }

  function Min(a: nat, b: nat): nat {
    if a <= b then a else b
  }

  class MetricTable {
    var items: array<Metric>
    var len: nat

    ghost predicate Valid()
      reads this
    {
      len <= items.Length
    }

    ghost function Contents(): seq<Metric>
      reads this, items
      requires Valid()
    {
      items[..len]
    }

    constructor ()
      ensures Valid() && fresh(items) && Contents() == [] && items.Length == 0
    {
      items := new Metric[0](_ => Metric("", 0));
      len := 0;
    }

    /** metric_state_get() */
    method Lookup(path: string) returns (value: Option<int>)
      requires Valid()
      ensures value == Get(Contents(), path)
    {
      var i := 0;
      while i < len
        invariant i <= len
        invariant forall k :: 0 <= k < i ==> items[k].path != path
      {
        if items[i].path == path {
          GetByIndex(Contents(), path, i);
          return Some(items[i].value);
        }
        i := i + 1;
      }
      GetByIndex(Contents(), path, i);
      return None;
    }

    /** metric_state_set(); `memory` is whether realloc succeeds, `asked` whether it was called. */
    method Store(path: string, value: int, memory: bool) returns (ok: bool, asked: bool)
      requires Valid()
      modifies this, items
      ensures Valid() && (items == old(items) || fresh(items))
      ensures asked == (!Has(old(Contents()), path) && old(len == items.Length))
      ensures ok == (memory || !asked)
      ensures Contents() == if ok then Set(old(Contents()), path, value) else old(Contents())
      ensures items.Length == if ok && asked then Doubled(old(items.Length)) else old(items.Length)
      ensures !memory ==> items == old(items)
    {
      ghost var before := Contents();
      var i := 0;
      while i < len
        invariant i <= len
        invariant forall k :: 0 <= k < i ==> items[k].path != path
      {
        if items[i].path == path {
          SetReplaces(before, path, value, i);
          items[i] := Metric(path, value);
          assert Contents() == before[i := Metric(path, value)];
          assert before[i].path == path;
          return true, false;
        }
        i := i + 1;
      }
      asked := len == items.Length;
      if asked {
        if !memory {
          return false, true;
        }
        Grow();
      }
      SetAppends(before, path, value);
      items[len] := Metric(Truncate(path, PATH_SIZE), value);
      len := len + 1;
      assert Contents() == before + [Metric(Truncate(path, PATH_SIZE), value)];
      return true, asked;
    }

    method Grow()
      requires Valid()
      modifies this
      ensures Valid() && fresh(items) && items.Length == Doubled(old(items.Length))
      ensures Contents() == old(Contents())
    {
      var next := new Metric[Doubled(items.Length)](_ => Metric("", 0));
      var i := 0;
      while i < len
        invariant i <= len == old(len) && items == old(items) && len <= next.Length
        invariant next[..i] == items[..i]
      {
        next[i] := items[i];
        i := i + 1;
      }
      items := next;
    }

    method Clear()
      modifies this
      ensures Valid() && Contents() == [] && items == old(items)
    {
      len := 0;
    }

    /** free(metrics) and back to the initial capacity. */
    method Release()
      modifies this
      ensures Valid() && Contents() == [] && fresh(items) && items.Length == 0
    {
      items := new Metric[0](_ => Metric("", 0));
      len := 0;
    }

    /** delta_state_replace(): copies the sample's metrics until a realloc fails, which the one after
        `growths` successful ones does. What is left is a prefix of them, as long as the capacity
        reached. */
    method ReplaceAll(metrics: seq<Metric>, growths: nat) returns (kept: nat)
      requires Valid() && Distinct(metrics)
      requires forall m :: m in metrics ==> |m.path| < PATH_SIZE
      modifies this, items
      ensures Valid() && (items == old(items) || fresh(items))
      ensures kept == Min(|metrics|, Grown(old(items.Length), growths))
      ensures Contents() == metrics[..kept]
    {
      Clear();
      kept := 0;
      var left := growths;
      while kept < |metrics|
        invariant kept <= |metrics| && Valid() && Contents() == metrics[..kept]
        invariant items == old(items) || fresh(items)
        invariant Grown(items.Length, left) == Grown(old(items.Length), growths)
      {
        var m := metrics[kept];
        PrefixSet(metrics, kept);
        var ok, asked := Store(m.path, m.value, left > 0);
        if !ok {
          return;
        }
        if asked {
          left := left - 1;
        }
        kept := kept + 1;
      }
    }
  }
}
