// The disk-capacity check of the object store and the extraction of
// spilling directories from the object-spilling configuration.
module FileSystemMonitor {
  import opened Wrappers

  /** What the operating system reports for one path (std::filesystem::space_info). */
  datatype SpaceInfo = SpaceInfo(capacity: nat, free: nat, available: nat)

  /** A monitor watches a list of paths against a usage threshold (a fraction). */
  datatype Monitor = Monitor(paths: seq<string>, threshold: real)

  /** The default monitor watches no path at all (threshold 1). */
  function NoopMonitor(): (m: Monitor)
    ensures m.paths == []
  {
    Monitor([], 1.0)
  }

  /** Fraction of the capacity that is no longer available. */
  function UsedFraction(s: SpaceInfo): real
    requires s.capacity > 0
  {
    1.0 - (s.available as real) / (s.capacity as real)
  }

  /**
   * A path is over capacity when its space is known and either it has no
   * capacity at all, or the used fraction has reached the threshold.
   * Unknown space (the query failed) never counts as over capacity.
   */
  function OverCapacityImpl(m: Monitor, space: Option<SpaceInfo>): (r: bool)
    ensures space.None? ==> !r
    ensures space.Some? && space.value.capacity == 0 ==> r
    ensures space.Some? && space.value.capacity > 0 ==>
      (r <==> (space.value.available as real) <= (1.0 - m.threshold) * (space.value.capacity as real))
  {
    match space
    case None => false
    case Some(s) =>
      if s.capacity == 0 then true
      else
        FractionBound(s, m.threshold);
        UsedFraction(s) >= m.threshold
  }

  /** Used fraction reaches t exactly when available <= (1 - t) * capacity. */
  lemma FractionBound(s: SpaceInfo, t: real)
    requires s.capacity > 0
    ensures UsedFraction(s) >= t <==> (s.available as real) <= (1.0 - t) * (s.capacity as real)
  {
    var c := s.capacity as real;
    var a := s.available as real;
    assert a / c * c == a;
    if UsedFraction(s) >= t {
      assert a / c <= 1.0 - t;
      assert a / c * c <= (1.0 - t) * c;
    } else {
      assert a / c > 1.0 - t;
      assert a / c * c > (1.0 - t) * c;
    }
  }

  /**
   * The monitor is over capacity when some watched path is; a monitor with
   * no path never is. spaces[i] is what the operating system reports for
   * paths[i].
   */
  method OverCapacity(m: Monitor, spaces: seq<Option<SpaceInfo>>) returns (over: bool)
    requires |spaces| == |m.paths|
    ensures over <==> exists i :: 0 <= i < |spaces| && OverCapacityImpl(m, spaces[i])
    ensures m.paths == [] ==> !over
  {
    if |m.paths| == 0 {
      return false;
    }
    var i := 0;
    while i < |m.paths|
      invariant 0 <= i <= |m.paths|
      invariant forall j :: 0 <= j < i ==> !OverCapacityImpl(m, spaces[j])
    {
      if OverCapacityImpl(m, spaces[i]) {
        return true;
      }
      i := i + 1;
    }
    return false;
  }

  /** A path with less available space than an over-capacity one is over capacity too. */
  lemma OverCapacityMonotone(m: Monitor, s: SpaceInfo, available: nat)
    requires OverCapacityImpl(m, Some(s))
    requires available <= s.available
    ensures OverCapacityImpl(m, Some(SpaceInfo(s.capacity, s.free, available)))
  {
    if s.capacity > 0 {
      assert (available as real) <= (s.available as real);
    }
  }

  /** With threshold 0 every path whose space is known is over capacity. */
  lemma ZeroThresholdAlwaysOver(paths: seq<string>, s: SpaceInfo)
    requires s.available <= s.capacity
    ensures OverCapacityImpl(Monitor(paths, 0.0), Some(s))
  {
    if s.capacity > 0 {
      assert (s.available as real) <= (s.capacity as real);
    }
  }

  /** With threshold 1 a path is over capacity only when nothing is available. */
  lemma FullThresholdOnlyWhenFull(paths: seq<string>, s: SpaceInfo)
    requires s.capacity > 0
    ensures OverCapacityImpl(Monitor(paths, 1.0), Some(s)) <==> s.available == 0
  {
  }

  // The JSON value of the spilling configuration, after the text is parsed.
  datatype Json =
    | JNull
    | JBool(b: bool)
    | JNumber(n: int)
    | JString(s: string)
    | JArray(items: seq<Json>)
    | JObject(fields: map<string, Json>)

  /** The string members of a JSON list, in order; the other members are dropped. */
  function StringsOf(items: seq<Json>): (r: seq<string>)
    ensures |r| <= |items|
  {
    if items == [] then []
    else if items[0].JString? then [items[0].s] + StringsOf(items[1..])
    else StringsOf(items[1..])
  }

  /** `obj[key]`, failing when obj is not an object or lacks the key. */
  function At(obj: Json, key: string): (r: Option<Json>)
    ensures r.Some? <==> obj.JObject? && key in obj.fields
    ensures r.Some? ==> r.value == obj.fields[key]
  {
    if obj.JObject? && key in obj.fields then Some(obj.fields[key]) else None
  }

  /**
   * The spilling directories named by config["params"]["directory_path"]:
   * the string itself, or the string members of a list. A config that did
   * not parse (None), a missing key or a value of another type yields no
   * directory.
   */
  function ParseSpillingPaths(config: Option<Json>): (r: seq<string>)
    ensures config.None? ==> r == []
  {
    if config.None? then []
    else
      match At(config.value, "params")
      case None => []
      case Some(params) =>
        match At(params, "directory_path")
        case None => []
        case Some(dir) =>
          if dir.JString? then [dir.s]
          else if dir.JArray? then StringsOf(dir.items)
          else []
  }

  /** The configuration {"type": ..., "params": {"directory_path": dir}}. */
  function SpillConfig(dir: Json): Json
  {
    JObject(map["type" := JString("filesystem"), "params" := JObject(map["directory_path" := dir])])
  }

  /** Dropping non-strings distributes over concatenation: relative order is kept. */
  lemma {:induction false} StringsOfAppend(a: seq<Json>, b: seq<Json>)
    ensures StringsOf(a + b) == StringsOf(a) + StringsOf(b)
  {
    if a == [] {
      assert a + b == b;
    } else {
      assert (a + b)[1..] == a[1..] + b;
      StringsOfAppend(a[1..], b);
    }
  }

  /** A string is extracted exactly when it is a member of the list. */
  lemma {:induction false} StringsOfMembers(items: seq<Json>, s: string)
    ensures s in StringsOf(items) <==> JString(s) in items
  {
    if items != [] {
      StringsOfMembers(items[1..], s);
      assert items == [items[0]] + items[1..];
    }
  }

  /** A list made only of strings yields exactly those strings, in order. */
  lemma {:induction false} StringsOfAllStrings(paths: seq<string>)
    ensures StringsOf(seq(|paths|, i requires 0 <= i < |paths| => JString(paths[i]))) == paths
  {
    var items := seq(|paths|, i requires 0 <= i < |paths| => JString(paths[i]));
    if paths != [] {
      var rest := seq(|paths| - 1, i requires 0 <= i < |paths| - 1 => JString(paths[1..][i]));
      assert items[1..] == rest;
      StringsOfAllStrings(paths[1..]);
      assert paths == [paths[0]] + paths[1..];
    }
  }

  /** A directory_path list of strings yields those strings in order. */
  lemma ParseListOfStrings(paths: seq<string>)
    ensures ParseSpillingPaths(Some(SpillConfig(JArray(seq(|paths|, i requires 0 <= i < |paths| => JString(paths[i])))))) == paths
  {
    StringsOfAllStrings(paths);
  }

  /** A single-string directory_path yields a one-element list. */
  lemma ParseSingleString(path: string)
    ensures ParseSpillingPaths(Some(SpillConfig(JString(path)))) == [path]
  {
  }

  /** A directory_path that is neither a string nor a list yields nothing. */
  lemma ParseOtherValue(dir: Json)
    requires !dir.JString? && !dir.JArray?
    ensures ParseSpillingPaths(Some(SpillConfig(dir))) == []
  {
  }

  /** A config whose params lack directory_path yields nothing. */
  lemma ParseMissingKey(params: map<string, Json>)
    requires "directory_path" !in params
    ensures ParseSpillingPaths(Some(JObject(map["type" := JString("filesystem"), "params" := JObject(params)]))) == []
  {
  }

  /** Non-string members are dropped and the strings around them keep their order. */
  lemma ParseMixedList(before: string, other: Json, after: string)
    requires !other.JString?
    ensures ParseSpillingPaths(Some(SpillConfig(JArray([JString(before), other, JString(after)])))) == [before, after]
  {
    var items := [JString(before), other, JString(after)];
    assert items[1..][1..][1..] == [];
    assert StringsOf(items[1..][1..]) == [after];
    assert StringsOf(items[1..]) == [after];
  }

  /** The test vectors of the capacity check, threshold 0.1. */
  lemma OverCapacityVectors(path: string)
    ensures !OverCapacityImpl(Monitor([path], 0.1), None)
    ensures !OverCapacityImpl(Monitor([path], 0.1), Some(SpaceInfo(11, 10, 10)))
    ensures OverCapacityImpl(Monitor([path], 0.1), Some(SpaceInfo(11, 9, 9)))
    ensures OverCapacityImpl(Monitor([path], 0.1), Some(SpaceInfo(0, 0, 0)))
  {
  }
}
