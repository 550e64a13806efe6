/** The virtual-device part of NewSessionOptions in the Triton backend: a device map is written
    into a comma-separated list of visible devices and a parallel list of memory limits. */
module Devices {
  import opened Text

  class GpuConfig {
    var deviceCount: map<string, nat>
    var virtualDevices: seq<seq<real>>
    var visibleDeviceList: string

    constructor ()
      ensures deviceCount == map[] && virtualDevices == [] && visibleDeviceList == ""
    {
      deviceCount, virtualDevices, visibleDeviceList := map[], [], "";
    }
  }

  ghost predicate Ascending(s: seq<int>) {
    forall i, j :: 0 <= i < j < |s| ==> s[i] < s[j]
  }

  /** The iteration order of a std::map: its keys, ascending. */
  ghost predicate IterationOrder(order: seq<int>, keys: set<int>) {
    Ascending(order) && forall k :: k in order <==> k in keys
  }

  lemma {:induction false} OrderHasEveryKeyOnce(order: seq<int>, keys: set<int>)
    requires IterationOrder(order, keys)
    ensures |order| == |keys|
  {
    if order == [] {
      assert forall k :: k !in keys;
      assert keys == {};
    } else {
      var n := |order| - 1;
      var front, last := order[..n], order[n];
      assert last in order;
      assert forall k :: k in order <==> k in front || k == last;
      assert last !in front;
      OrderHasEveryKeyOnce(front, keys - {last});
    }
  }

  ghost predicate IsLeast(m: int, keys: set<int>) {
    m in keys && forall k :: k in keys ==> m <= k
  }

  lemma {:induction false} LeastExists(keys: set<int>, x: int)
    requires x in keys
    ensures exists m :: IsLeast(m, keys)
    decreases keys
  {
    if y :| y in keys && y < x {
      LeastExists(keys - {x}, y);
      var m :| IsLeast(m, keys - {x});
      assert y in keys - {x};
      forall k | k in keys ensures m <= k {
        assert k != x ==> k in keys - {x};
      }
      assert IsLeast(m, keys);
    } else {
      assert IsLeast(x, keys);
    }
  }

  lemma SomeKey(keys: set<int>)
    requires keys != {}
    ensures exists x :: x in keys
  {
    assert (forall x :: x !in keys) ==> keys == {};
  }

  /** Every finite key set has an iteration order. */
  function KeysAscending(keys: set<int>): (order: seq<int>)
    ensures IterationOrder(order, keys)
  {
    if keys == {} then [] else
      SomeKey(keys);
      assert exists m :: IsLeast(m, keys) by {
        var x :| x in keys;
        LeastExists(keys, x);
      }
      var m :| m in keys && forall k :: k in keys ==> m <= k;
      var rest := KeysAscending(keys - {m});
      OrderCons(m, rest, keys);
      [m] + rest
  }

  lemma OrderCons(m: int, rest: seq<int>, keys: set<int>)
    requires IsLeast(m, keys) && IterationOrder(rest, keys - {m})
    ensures IterationOrder([m] + rest, keys)
  {
    var order := [m] + rest;
    forall i, j | 0 <= i < j < |order| ensures order[i] < order[j] {
      if i == 0 {
        var k := rest[j - 1];
        assert k in rest;
        assert k in keys - {m};
      }
    }
    forall k ensures k in order <==> k in keys {
      assert k in order <==> k == m || k in rest;
      assert k in rest <==> k in keys - {m};
    }
  }

  function Numerals(keys: seq<int>): seq<string> {
    seq(|keys|, i requires 0 <= i < |keys| => IntToDecimal(keys[i]))
  }

  /** The list as the loop grows it, every numeral led by a comma. */
  function LedByCommas(keys: seq<int>): string {
    if keys == [] then "" else LedByCommas(keys[..|keys| - 1]) + ("," + IntToDecimal(keys[|keys| - 1]))
  }

  lemma {:induction false} JoinSnoc(parts: seq<string>, last: string, sep: char)
    requires parts != []
    ensures Join(parts + [last], sep) == Join(parts, sep) + ([sep] + last)
  {
    if |parts| == 1 {
      assert (parts + [last])[1..] == [last];
    } else {
      assert (parts + [last])[1..] == parts[1..] + [last];
      JoinSnoc(parts[1..], last, sep);
    }
  }

  /** Dropping the leading comma leaves the numerals joined by commas. */
  lemma {:induction false} LedByCommasIsJoin(keys: seq<int>)
    requires keys != []
    ensures LedByCommas(keys) == "," + Join(Numerals(keys), ',')
  {
    var n := |keys| - 1;
    var front, last := keys[..n], IntToDecimal(keys[n]);
    NumeralsSnoc(keys);
    if front == [] {
      assert Numerals(keys) == [last];
    } else {
      LedByCommasIsJoin(front);
      JoinSnoc(Numerals(front), last, ',');
      Regroup(",", Join(Numerals(front), ','), "," + last);
    }
  }

  lemma NumeralsSnoc(keys: seq<int>)
    requires keys != []
    ensures var n := |keys| - 1; Numerals(keys) == Numerals(keys[..n]) + [IntToDecimal(keys[n])]
  {}

  lemma Regroup(a: string, b: string, c: string)
    ensures a + b + c == a + (b + c)
  {}

  lemma NumeralHasNoComma(n: int)
    ensures ',' !in IntToDecimal(n)
  {
    NumeralAvoids(if n < 0 then -n else n, ',');
  }

  ghost predicate ListsDevices(list: string, keys: seq<int>) {
    var parts := Split(list, ',');
    |parts| == |keys| && forall i :: 0 <= i < |keys| ==> IsNumeral(parts[i]) && ParseInt(parts[i]) == keys[i]
  }

  /** Splitting the built list on commas and parsing the numerals gives the keys back, in order. */
  lemma VisibleListRoundTrip(keys: seq<int>)
    requires keys != []
    ensures |LedByCommas(keys)| >= 1
    ensures ListsDevices(LedByCommas(keys)[1..], keys)
  {
    var parts := Numerals(keys);
    forall i | 0 <= i < |keys|
      ensures ',' !in parts[i] && IsNumeral(parts[i]) && ParseInt(parts[i]) == keys[i]
    {
      NumeralHasNoComma(keys[i]);
      IntRoundTrip(keys[i]);
    }
    LedByCommasIsJoin(keys);
    SplitJoin(parts, ',');
    assert LedByCommas(keys)[1..] == Join(parts, ',');
  }

  method CopyLimits(limits: seq<real>) returns (copy: seq<real>)
    ensures copy == limits
  {
    copy := [];
    for m := 0 to |limits|
      invariant copy == limits[..m]
    {
      copy := copy + [limits[m]];
    }
  }

  /** The memory limits of the listed devices, in their order. */
  ghost predicate LimitsInOrder(rows: seq<seq<real>>, limits: map<int, seq<real>>, keys: seq<int>) {
    |rows| == |keys| && forall i :: 0 <= i < |keys| ==> keys[i] in limits && rows[i] == limits[keys[i]]
  }

  /** The map is iterated in ascending key order. An empty map leaves every option alone. */
  method CreateVirtualDevices(config: GpuConfig, limits: map<int, seq<real>>)
    modifies config
    ensures limits == map[] ==>
      && config.deviceCount == old(config.deviceCount)
      && config.virtualDevices == old(config.virtualDevices)
      && config.visibleDeviceList == old(config.visibleDeviceList)
    ensures limits != map[] ==>
      var order := KeysAscending(limits.Keys);
      && config.deviceCount == old(config.deviceCount)["GPU" := |order|]
      && ListsDevices(config.visibleDeviceList, order)
      && old(config.virtualDevices) <= config.virtualDevices
      && LimitsInOrder(config.virtualDevices[|old(config.virtualDevices)|..], limits, order)
  {
    var order := KeysAscending(limits.Keys);
    OrderHasEveryKeyOnce(order, limits.Keys);
    if |limits| != 0 {
      config.deviceCount := config.deviceCount["GPU" := |limits|];
      forall i | 0 <= i < |order| ensures order[i] in limits {
        var k := order[i];
        assert k in order;
      }
      var list := AddDevices(config, limits, order);
      VisibleListRoundTrip(order);
      config.visibleDeviceList := list[1..];
    }
  }

  lemma LedByCommasSnoc(keys: seq<int>, i: nat)
    requires i < |keys|
    ensures LedByCommas(keys[..i + 1]) == LedByCommas(keys[..i]) + ("," + IntToDecimal(keys[i]))
  {
    assert keys[..i + 1][..i] == keys[..i];
  }

  lemma LimitsSnoc(rows: seq<seq<real>>, limits: map<int, seq<real>>, keys: seq<int>, i: nat)
    requires i < |keys| && keys[i] in limits
    requires LimitsInOrder(rows, limits, keys[..i])
    ensures LimitsInOrder(rows + [limits[keys[i]]], limits, keys[..i + 1])
  {
    var all := keys[..i + 1];
    forall j | 0 <= j < |all|
      ensures all[j] in limits && (rows + [limits[keys[i]]])[j] == limits[all[j]]
    {
      assert j < i ==> all[j] == keys[..i][j];
    }
  }

  method AddDevices(config: GpuConfig, limits: map<int, seq<real>>, order: seq<int>) returns (list: string)
    requires forall i :: 0 <= i < |order| ==> order[i] in limits
    modifies config`virtualDevices
    ensures list == LedByCommas(order)
    ensures old(config.virtualDevices) <= config.virtualDevices
    ensures LimitsInOrder(config.virtualDevices[|old(config.virtualDevices)|..], limits, order)
  {
    list := "";
    ghost var before := config.virtualDevices;
    ghost var rows: seq<seq<real>> := [];
    for i := 0 to |order|
      invariant list == LedByCommas(order[..i])
      invariant LimitsInOrder(rows, limits, order[..i])
      invariant config.virtualDevices == before + rows
    {
      var added := CopyLimits(limits[order[i]]);
      config.virtualDevices := config.virtualDevices + [added];
      LimitsSnoc(rows, limits, order, i);
      rows := rows + [added];
      list := list + ("," + IntToDecimal(order[i]));
      LedByCommasSnoc(order, i);
    }
    assert order[..|order|] == order;
    assert config.virtualDevices[|before|..] == rows;
  }
}
